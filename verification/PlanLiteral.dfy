/**
 The literal parser that reads the argument of a Codex `update_plan` call.

 A source text is a `string` whose characters stand for the bytes the source program
 indexes.  `ValueAt` and its helpers are the parser as functions of the text and a
 position; `Parser` is the object with a position field, proved to compute them.
 `PlanGrammar` gives the language independently, as syntax trees with a spelling and
 a meaning, and `PlanCorrectness` proves that the parser accepts exactly that language.
 */
module PlanLiteral {

  /** Objects, arrays and strings are the only literals; everything else is refused. */
  datatype Value =
    | Text(text: string)
    | List(items: seq<Value>)
    | Object(fields: map<string, Value>)

  datatype Error =
    | UnexpectedEnd
    | DynamicExpression
    | UnterminatedObject
    | DuplicateKey(key: string)
    | MissingColon
    | ExpectedCommaOrObjectEnd
    | UnterminatedArray
    | ExpectedCommaOrArrayEnd
    | MissingKey
    | InvalidKey
    | UnterminatedString
    | UnterminatedEscape
    | UnsupportedEscape
    | ShortUnicodeEscape
    | InvalidUnicodeEscape
    | IncompleteSurrogatePair
    | InvalidSurrogatePair

  /** A parse of a `T` that stopped just before position `pos`, or an error. */
  datatype Parse<+T> = Ok(value: T, pos: nat) | Err(error: Error)

  // ---------------------------------------------------------------- characters

  predicate IsSpace(c: char) {
    c == ' ' || c == '\n' || c == '\r' || c == '\t'
  }

  predicate IsIdentifier(c: char) {
    c == '_' || c == '$' || 'a' <= c <= 'z' || 'A' <= c <= 'Z' || '0' <= c <= '9'
  }

  predicate IsQuote(c: char) {
    c == '\'' || c == '"'
  }

  predicate IsHexDigit(c: char) {
    '0' <= c <= '9' || 'a' <= c <= 'f' || 'A' <= c <= 'F'
  }

  function HexDigit(c: char): (v: nat)
    requires IsHexDigit(c)
    ensures v < 16
  {
    if '0' <= c <= '9' then c as nat - '0' as nat
    else if 'a' <= c <= 'f' then c as nat - 'a' as nat + 10
    else c as nat - 'A' as nat + 10
  }

  predicate IsHex4(h: string) {
    |h| == 4 && IsHexDigit(h[0]) && IsHexDigit(h[1]) && IsHexDigit(h[2]) && IsHexDigit(h[3])
  }

  function Hex4(h: string): (v: nat)
    requires IsHex4(h)
    ensures v < 0x10000
  {
    ((HexDigit(h[0]) * 16 + HexDigit(h[1])) * 16 + HexDigit(h[2])) * 16 + HexDigit(h[3])
  }

  predicate IsSurrogate(r: nat) { 0xD800 <= r < 0xE000 }
  predicate IsHighSurrogate(r: nat) { 0xD800 <= r < 0xDC00 }
  predicate IsLowSurrogate(r: nat) { 0xDC00 <= r < 0xE000 }

  function JoinSurrogates(high: nat, low: nat): (r: nat)
    requires IsHighSurrogate(high) && IsLowSurrogate(low)
    ensures 0x10000 <= r < 0x110000
  {
    (high - 0xD800) * 0x400 + (low - 0xDC00) + 0x10000
  }

  /** The UTF-8 bytes of a code point. */
  function Utf8(r: nat): string
    requires r < 0x110000
  {
    if r < 0x80 then [r as char]
    else if r < 0x800 then [(0xC0 + r / 0x40) as char, (0x80 + r % 0x40) as char]
    else if r < 0x10000 then
      [(0xE0 + r / 0x1000) as char, (0x80 + r / 0x40 % 0x40) as char, (0x80 + r % 0x40) as char]
    else
      [(0xF0 + r / 0x40000) as char, (0x80 + r / 0x1000 % 0x40) as char,
       (0x80 + r / 0x40 % 0x40) as char, (0x80 + r % 0x40) as char]
  }

  predicate IsSimpleEscape(c: char) {
    c == '\\' || c == '\'' || c == '"' || c == '/' || c == 'b' || c == 'f' || c == 'n' || c == 'r' || c == 't'
  }

  function SimpleEscape(c: char): char
    requires IsSimpleEscape(c)
  {
    if c == 'b' then 8 as char
    else if c == 'f' then 12 as char
    else if c == 'n' then '\n'
    else if c == 'r' then '\r'
    else if c == 't' then '\t'
    else c
  }

  // ---------------------------------------------------------------- the parser as functions

  function SkipSpace(s: string, i: nat): (j: nat)
    requires i <= |s|
    ensures i <= j <= |s|
    decreases |s| - i
  {
    if i < |s| && IsSpace(s[i]) then SkipSpace(s, i + 1) else i
  }

  function SkipWord(s: string, i: nat): (j: nat)
    requires i <= |s|
    ensures i <= j <= |s|
    decreases |s| - i
  {
    if i < |s| && IsIdentifier(s[i]) then SkipWord(s, i + 1) else i
  }

  function HexRuneAt(s: string, i: nat): (p: Parse<nat>)
    requires i <= |s|
    ensures p.Ok? ==> p.pos == i + 4 <= |s| && p.value < 0x10000
  {
    if i + 4 > |s| then Err(ShortUnicodeEscape)
    else if IsHex4(s[i..i + 4]) then Ok(Hex4(s[i..i + 4]), i + 4)
    else Err(InvalidUnicodeEscape)
  }

  /** After a backslash and a `u`: one code unit, or a surrogate pair. */
  function UnicodeEscapeAt(s: string, i: nat): (p: Parse<nat>)
    requires i <= |s|
    ensures p.Ok? ==> i < p.pos <= |s| && p.value < 0x110000
  {
    var first := HexRuneAt(s, i);
    if first.Err? || !IsSurrogate(first.value) then first
    else if first.pos + 2 > |s| || s[first.pos..first.pos + 2] != "\\u" then Err(IncompleteSurrogatePair)
    else
      var second := HexRuneAt(s, first.pos + 2);
      if second.Err? then second
      else if IsHighSurrogate(first.value) && IsLowSurrogate(second.value) then
        Ok(JoinSurrogates(first.value, second.value), second.pos)
      else Err(InvalidSurrogatePair)
  }

  /** After a backslash: the bytes the escape stands for. */
  function EscapeAt(s: string, i: nat): (p: Parse<string>)
    requires i <= |s|
    ensures p.Ok? ==> i < p.pos <= |s|
  {
    if i >= |s| then Err(UnterminatedEscape)
    else if IsSimpleEscape(s[i]) then Ok([SimpleEscape(s[i])], i + 1)
    else if s[i] == 'u' then
      var r := UnicodeEscapeAt(s, i + 1);
      if r.Err? then Err(r.error) else Ok(Utf8(r.value), r.pos)
    else Err(UnsupportedEscape)
  }

  function Prepend(head: string, p: Parse<string>): Parse<string> {
    if p.Err? then p else Ok(head + p.value, p.pos)
  }

  /** Inside a string opened by `quote`. */
  function StringTailAt(s: string, i: nat, quote: char): (p: Parse<string>)
    requires i <= |s|
    ensures p.Ok? ==> i < p.pos <= |s|
    decreases |s| - i
  {
    if i >= |s| then Err(UnterminatedString)
    else if s[i] == quote then Ok("", i + 1)
    else if s[i] != '\\' then Prepend([s[i]], StringTailAt(s, i + 1, quote))
    else
      var e := EscapeAt(s, i + 1);
      if e.Err? then e else Prepend(e.value, StringTailAt(s, e.pos, quote))
  }

  function KeyAt(s: string, i: nat): (p: Parse<string>)
    requires i <= |s|
    ensures p.Ok? ==> i < p.pos <= |s|
  {
    var i := SkipSpace(s, i);
    if i >= |s| then Err(MissingKey)
    else if IsQuote(s[i]) then StringTailAt(s, i + 1, s[i])
    else
      var j := SkipWord(s, i);
      if j == i then Err(InvalidKey) else Ok(s[i..j], j)
  }

  function ValueAt(s: string, i: nat): (p: Parse<Value>)
    requires i <= |s|
    ensures p.Ok? ==> i < p.pos <= |s|
    decreases |s| - i, 0
  {
    var i := SkipSpace(s, i);
    if i >= |s| then Err(UnexpectedEnd)
    else if s[i] == '{' then
      var m := MembersAt(s, i + 1, map[]);
      if m.Err? then Err(m.error) else Ok(Object(m.value), m.pos)
    else if s[i] == '[' then
      var e := ElementsAt(s, i + 1, []);
      if e.Err? then Err(e.error) else Ok(List(e.value), e.pos)
    else if IsQuote(s[i]) then
      var t := StringTailAt(s, i + 1, s[i]);
      if t.Err? then Err(t.error) else Ok(Text(t.value), t.pos)
    else Err(DynamicExpression)
  }

  /** Inside an object, before a member or the closing brace, with `fields` read so far. */
  function MembersAt(s: string, i: nat, fields: map<string, Value>): (p: Parse<map<string, Value>>)
    requires i <= |s|
    ensures p.Ok? ==> i < p.pos <= |s|
    decreases |s| - i, 1
  {
    var i := SkipSpace(s, i);
    if i >= |s| then Err(UnterminatedObject)
    else if s[i] == '}' then Ok(fields, i + 1)
    else
      var key := KeyAt(s, i);
      if key.Err? then Err(key.error)
      else if key.value in fields then Err(DuplicateKey(key.value))
      else
        var colon := SkipSpace(s, key.pos);
        if colon >= |s| || s[colon] != ':' then Err(MissingColon) else FieldAt(s, colon + 1, fields, key.value)
  }

  /** Behind the colon of the member `key`: its value, and the members that follow. */
  function FieldAt(s: string, i: nat, fields: map<string, Value>, key: string): (p: Parse<map<string, Value>>)
    requires i <= |s|
    ensures p.Ok? ==> i < p.pos <= |s|
    decreases |s| - i, 1
  {
    var v := ValueAt(s, i);
    if v.Err? then Err(v.error) else MoreMembersAt(s, v.pos, fields[key := v.value])
  }

  /** Behind a member: a comma and more, or the closing brace. */
  function MoreMembersAt(s: string, i: nat, fields: map<string, Value>): (p: Parse<map<string, Value>>)
    requires i <= |s|
    ensures p.Ok? ==> i < p.pos <= |s|
    decreases |s| - i, 0
  {
    var i := SkipSpace(s, i);
    if i < |s| && s[i] == ',' then MembersAt(s, i + 1, fields)
    else if i < |s| && s[i] == '}' then Ok(fields, i + 1)
    else Err(ExpectedCommaOrObjectEnd)
  }

  /** Inside an array, before an element or the closing bracket, with `items` read so far. */
  function ElementsAt(s: string, i: nat, items: seq<Value>): (p: Parse<seq<Value>>)
    requires i <= |s|
    ensures p.Ok? ==> i < p.pos <= |s|
    decreases |s| - i, 1
  {
    var i := SkipSpace(s, i);
    if i >= |s| then Err(UnterminatedArray)
    else if s[i] == ']' then Ok(items, i + 1)
    else
      var v := ValueAt(s, i);
      if v.Err? then Err(v.error) else MoreElementsAt(s, v.pos, items + [v.value])
  }

  /** Behind an element: a comma and more, or the closing bracket. */
  function MoreElementsAt(s: string, i: nat, items: seq<Value>): (p: Parse<seq<Value>>)
    requires i <= |s|
    ensures p.Ok? ==> i < p.pos <= |s|
    decreases |s| - i, 0
  {
    var i := SkipSpace(s, i);
    if i < |s| && s[i] == ',' then ElementsAt(s, i + 1, items)
    else if i < |s| && s[i] == ']' then Ok(items, i + 1)
    else Err(ExpectedCommaOrArrayEnd)
  }
}
