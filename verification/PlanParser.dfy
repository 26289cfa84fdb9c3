/**
 The parser object: a source, a position that only moves forward, and one method for
 each function of `PlanLiteral`.  On top of it, cutting the literal out of the code
 around it.
 */
module PlanParser {
  import opened Common
  import opened PlanLiteral
  import opened PlanGrammar
  import opened PlanCorrectness
  import opened PlanScanner

  class Parser {
    const source: string
    var pos: nat

    ghost predicate Valid()
      reads this
    {
      pos <= |source|
    }

    constructor (source: string, pos: nat)
      requires pos <= |source|
      ensures Valid() && this.source == source && this.pos == pos
    {
      this.source := source;
      this.pos := pos;
    }

    method SkipBlanks()
      requires Valid()
      modifies this`pos
      ensures Valid() && pos == SkipSpace(source, old(pos))
    {
      while pos < |source| && IsSpace(source[pos])
        invariant pos <= |source| && SkipSpace(source, pos) == SkipSpace(source, old(pos))
      {
        pos := pos + 1;
      }
    }

    method ParseHexRune() returns (p: Parse<nat>)
      requires Valid()
      modifies this`pos
      ensures Valid() && p == HexRuneAt(source, old(pos)) && (p.Ok? ==> pos == p.pos)
    {
      if pos + 4 > |source| {
        return Err(ShortUnicodeEscape);
      }
      var digits := source[pos..pos + 4];
      if !IsHex4(digits) {
        return Err(InvalidUnicodeEscape);
      }
      pos := pos + 4;
      return Ok(Hex4(digits), pos);
    }

    method ParseUnicodeEscape() returns (p: Parse<nat>)
      requires Valid()
      modifies this`pos
      ensures Valid() && p == UnicodeEscapeAt(source, old(pos)) && (p.Ok? ==> pos == p.pos)
    {
      var first := ParseHexRune();
      if first.Err? || !IsSurrogate(first.value) {
        return first;
      }
      if pos + 2 > |source| || source[pos..pos + 2] != "\\u" {
        return Err(IncompleteSurrogatePair);
      }
      pos := pos + 2;
      var second := ParseHexRune();
      if second.Err? {
        return second;
      }
      if !IsHighSurrogate(first.value) || !IsLowSurrogate(second.value) {
        return Err(InvalidSurrogatePair);
      }
      return Ok(JoinSurrogates(first.value, second.value), pos);
    }

    /** One escape, its backslash already read. */
    method ParseEscape() returns (p: Parse<string>)
      requires Valid()
      modifies this`pos
      ensures Valid() && p == EscapeAt(source, old(pos)) && (p.Ok? ==> pos == p.pos)
    {
      if pos >= |source| {
        return Err(UnterminatedEscape);
      }
      var escape := source[pos];
      pos := pos + 1;
      if IsSimpleEscape(escape) {
        return Ok([SimpleEscape(escape)], pos);
      }
      if escape != 'u' {
        return Err(UnsupportedEscape);
      }
      var rune := ParseUnicodeEscape();
      if rune.Err? {
        return Err(rune.error);
      }
      return Ok(Utf8(rune.value), pos);
    }

    method ParseString() returns (p: Parse<string>)
      requires Valid() && pos < |source|
      modifies this`pos
      ensures Valid() && p == StringTailAt(source, old(pos) + 1, source[old(pos)]) && (p.Ok? ==> pos == p.pos)
    {
      var quote := source[pos];
      pos := pos + 1;
      var out := "";
      PrependNothing(StringTailAt(source, pos, quote));
      while pos < |source|
        invariant old(pos) < pos <= |source|
        invariant StringTailAt(source, old(pos) + 1, quote) == Prepend(out, StringTailAt(source, pos, quote))
        decreases |source| - pos
      {
        var ch := source[pos];
        pos := pos + 1;
        if ch == quote {
          assert out + "" == out;
          return Ok(out, pos);
        }
        var piece := [ch];
        if ch == '\\' {
          var e := ParseEscape();
          if e.Err? {
            return Err(e.error);
          }
          piece := e.value;
        }
        PrependTwice(out, piece, StringTailAt(source, pos, quote));
        out := out + piece;
      }
      return Err(UnterminatedString);
    }

    method ParseKey() returns (p: Parse<string>)
      requires Valid()
      modifies this`pos
      ensures Valid() && p == KeyAt(source, old(pos)) && (p.Ok? ==> pos == p.pos)
    {
      SkipBlanks();
      if pos >= |source| {
        return Err(MissingKey);
      }
      if IsQuote(source[pos]) {
        p := ParseString();
        return;
      }
      var start := pos;
      while pos < |source| && IsIdentifier(source[pos])
        invariant start <= pos <= |source| && SkipWord(source, pos) == SkipWord(source, start)
      {
        pos := pos + 1;
      }
      if start == pos {
        return Err(InvalidKey);
      }
      return Ok(source[start..pos], pos);
    }

    method ParseValue() returns (p: Parse<Value>)
      requires Valid()
      modifies this`pos
      ensures Valid() && p == ValueAt(source, old(pos)) && (p.Ok? ==> pos == p.pos)
      decreases |source| - pos, 1
    {
      SkipBlanks();
      if pos >= |source| {
        return Err(UnexpectedEnd);
      }
      if source[pos] == '{' {
        var fields := ParseObject();
        return if fields.Err? then Err(fields.error) else Ok(Object(fields.value), pos);
      }
      if source[pos] == '[' {
        var items := ParseArray();
        return if items.Err? then Err(items.error) else Ok(List(items.value), pos);
      }
      if IsQuote(source[pos]) {
        var text := ParseString();
        return if text.Err? then Err(text.error) else Ok(Text(text.value), pos);
      }
      return Err(DynamicExpression);
    }

    method ParseObject() returns (p: Parse<map<string, Value>>)
      requires Valid() && pos < |source|
      modifies this`pos
      ensures Valid() && p == MembersAt(source, old(pos) + 1, map[]) && (p.Ok? ==> pos == p.pos)
      decreases |source| - pos, 0
    {
      pos := pos + 1;
      var fields: map<string, Value> := map[];
      var more := true;
      while more
        invariant old(pos) < pos <= |source|
        invariant more ==> MembersAt(source, old(pos) + 1, map[]) == MembersAt(source, pos, fields)
        invariant !more ==> MembersAt(source, old(pos) + 1, map[]) == Ok(fields, pos)
        decreases more, |source| - pos
      {
        SkippedTwice(source, pos);
        SkipBlanks();
        if pos >= |source| {
          return Err(UnterminatedObject);
        }
        if source[pos] == '}' {
          pos := pos + 1;
          return Ok(fields, pos);
        }
        var member;
        member, more := ParseMember(fields);
        if member.Err? {
          return Err(member.error);
        }
        fields := member.value;
      }
      return Ok(fields, pos);
    }

    /** One round of the object loop: a member, and whether a comma announces another one. */
    method ParseMember(fields: map<string, Value>) returns (p: Parse<map<string, Value>>, more: bool)
      requires Valid() && pos < |source| && source[pos] != '}' && SkipSpace(source, pos) == pos
      modifies this`pos
      ensures Valid() && (p.Ok? ==> old(pos) < pos == p.pos)
      ensures p.Err? || !more ==> MembersAt(source, old(pos), fields) == p
      ensures p.Ok? && more ==> MembersAt(source, old(pos), fields) == MembersAt(source, pos, p.value)
      decreases |source| - pos, 2
    {
      more := false;
      var key := ParseKey();
      if key.Err? {
        p := Err(key.error);
        return;
      }
      if key.value in fields {
        p := Err(DuplicateKey(key.value));
        return;
      }
      SkipBlanks();
      if pos >= |source| || source[pos] != ':' {
        p := Err(MissingColon);
        return;
      }
      pos := pos + 1;
      p, more := ParseField(fields, key.value);
    }

    /** The rest of the round, behind the colon. */
    method ParseField(fields: map<string, Value>, key: string) returns (p: Parse<map<string, Value>>, more: bool)
      requires Valid()
      modifies this`pos
      ensures Valid() && (p.Ok? ==> old(pos) < pos == p.pos)
      ensures p.Err? || !more ==> FieldAt(source, old(pos), fields, key) == p
      ensures p.Ok? && more ==> FieldAt(source, old(pos), fields, key) == MembersAt(source, pos, p.value)
      decreases |source| - pos, 2
    {
      more := false;
      var value := ParseValue();
      if value.Err? {
        p := Err(value.error);
        return;
      }
      var fields' := fields[key := value.value];
      SkipBlanks();
      if pos < |source| && source[pos] == ',' {
        pos := pos + 1;
        MembersBehindBlanks(source, pos, fields');
        SkipBlanks();
        more := true;
        if pos < |source| && source[pos] == '}' {
          pos := pos + 1;
          more := false;
        }
        p := Ok(fields', pos);
      } else if pos < |source| && source[pos] == '}' {
        pos := pos + 1;
        p := Ok(fields', pos);
      } else {
        p := Err(ExpectedCommaOrObjectEnd);
      }
    }

    method ParseArray() returns (p: Parse<seq<Value>>)
      requires Valid() && pos < |source|
      modifies this`pos
      ensures Valid() && p == ElementsAt(source, old(pos) + 1, []) && (p.Ok? ==> pos == p.pos)
      decreases |source| - pos, 0
    {
      pos := pos + 1;
      var items: seq<Value> := [];
      var more := true;
      while more
        invariant old(pos) < pos <= |source|
        invariant more ==> ElementsAt(source, old(pos) + 1, []) == ElementsAt(source, pos, items)
        invariant !more ==> ElementsAt(source, old(pos) + 1, []) == Ok(items, pos)
        decreases more, |source| - pos
      {
        SkippedTwice(source, pos);
        SkipBlanks();
        if pos >= |source| {
          return Err(UnterminatedArray);
        }
        if source[pos] == ']' {
          pos := pos + 1;
          return Ok(items, pos);
        }
        var element;
        element, more := ParseElement(items);
        if element.Err? {
          return Err(element.error);
        }
        items := element.value;
      }
      return Ok(items, pos);
    }

    /** One round of the array loop: an element, and whether a comma announces another one. */
    method ParseElement(items: seq<Value>) returns (p: Parse<seq<Value>>, more: bool)
      requires Valid() && pos < |source| && source[pos] != ']' && SkipSpace(source, pos) == pos
      modifies this`pos
      ensures Valid() && (p.Ok? ==> old(pos) < pos == p.pos)
      ensures p.Err? || !more ==> ElementsAt(source, old(pos), items) == p
      ensures p.Ok? && more ==> ElementsAt(source, old(pos), items) == ElementsAt(source, pos, p.value)
      decreases |source| - pos, 2
    {
      more := false;
      var value := ParseValue();
      if value.Err? {
        p := Err(value.error);
        return;
      }
      var items' := items + [value.value];
      SkipBlanks();
      if pos < |source| && source[pos] == ',' {
        pos := pos + 1;
        ElementsBehindBlanks(source, pos, items');
        SkipBlanks();
        more := true;
        if pos < |source| && source[pos] == ']' {
          pos := pos + 1;
          more := false;
        }
        p := Ok(items', pos);
      } else if pos < |source| && source[pos] == ']' {
        pos := pos + 1;
        p := Ok(items', pos);
      } else {
        p := Err(ExpectedCommaOrArrayEnd);
      }
    }
  }

  lemma MembersBehindBlanks(s: string, i: nat, fields: map<string, Value>)
    requires i <= |s|
    ensures MembersAt(s, SkipSpace(s, i), fields) == MembersAt(s, i, fields)
  {
    SkippedTwice(s, i);
  }

  lemma ElementsBehindBlanks(s: string, i: nat, items: seq<Value>)
    requires i <= |s|
    ensures ElementsAt(s, SkipSpace(s, i), items) == ElementsAt(s, i, items)
  {
    SkippedTwice(s, i);
  }

  lemma PrependNothing(p: Parse<string>)
    ensures Prepend("", p) == p
  {
    if p.Ok? {
      assert "" + p.value == p.value;
    }
  }

  lemma PrependTwice(a: string, b: string, p: Parse<string>)
    ensures Prepend(a, Prepend(b, p)) == Prepend(a + b, p)
  {
    if p.Ok? {
      assert a + (b + p.value) == a + b + p.value;
    }
  }

  // ---------------------------------------------------------------- cutting out the literal

  datatype Extraction =
    | Literal(start: nat, end: nat)
    | NotExactlyOneCall
    | NotCalledWithLiteral
    | BadLiteral(error: Error)
    | NotClosed

  lemma {:induction false} CallsFit(s: string, n: nat, k: nat)
    requires n <= |s| && k < |CallsBefore(s, n)|
    ensures CallsBefore(s, n)[k] < n && IsCallAt(s, CallsBefore(s, n)[k])
  {
    if k < |CallsBefore(s, n - 1)| {
      CallsFit(s, n - 1, k);
    }
  }

  /** Where the argument of the only call stands, if it is a closed literal. */
  function ExtractLiteral(source: string): (x: Extraction)
    ensures x.Literal? ==> x.start <= x.end <= |source|
  {
    var calls := CallsBefore(source, |source|);
    if |calls| != 1 then NotExactlyOneCall
    else
      CallsFit(source, |source|, 0);
      var open := SkipSpace(source, calls[0] + |TARGET|);
      if open >= |source| || source[open] != '(' then NotCalledWithLiteral
      else
        var p := ValueAt(source, open + 1);
        if p.Err? then BadLiteral(p.error)
        else
          var close := SkipSpace(source, p.pos);
          if close >= |source| || source[close] != ')' then NotClosed else Literal(open + 1, p.pos)
  }

  method Extract(source: string) returns (x: Extraction)
    ensures x == ExtractLiteral(source)
  {
    var positions := FindCalls(source);
    if |positions| != 1 {
      return NotExactlyOneCall;
    }
    CallsFit(source, |source|, 0);
    var pos := positions[0] + |TARGET|;
    while pos < |source| && IsSpace(source[pos])
      invariant pos <= |source| && SkipSpace(source, pos) == SkipSpace(source, positions[0] + |TARGET|)
    {
      pos := pos + 1;
    }
    if pos >= |source| || source[pos] != '(' {
      return NotCalledWithLiteral;
    }
    var parser := new Parser(source, pos + 1);
    var value := parser.ParseValue();
    if value.Err? {
      return BadLiteral(value.error);
    }
    var end := parser.pos;
    parser.SkipBlanks();
    if parser.pos >= |source| || source[parser.pos] != ')' {
      return NotClosed;
    }
    return Literal(pos + 1, end);
  }

  // ---------------------------------------------------------------- what is cut out

  // The answers of `ExtractLiteral` in terms of the lexer, the grammar and the characters of
  // the text, without the scanner and the parser.

  /** The text has one call, and it starts at `i`. */
  ghost predicate OnlyCall(source: string, i: nat) {
    i < |source| && IsCallAt(source, i) && forall j | 0 <= j < |source| && IsCallAt(source, j) :: j == i
  }

  /** Blanks, and then this character at position `at`. */
  ghost predicate Leads(source: string, from: nat, at: nat, c: char) {
    from <= at < |source| && source[at] == c && forall k | from <= k < at :: IsSpace(source[k])
  }

  /** An opening parenthesis at `open` follows the call at `i`. */
  ghost predicate Opens(source: string, i: nat, open: nat) {
    Leads(source, i + |"tools.update_plan"|, open, '(')
  }

  /** A literal of the grammar is written between the two positions. */
  ghost predicate Written(source: string, start: nat, end: nat) {
    start <= end <= |source| && exists x :: Good(x) && source[start..end] == Spell(x)
  }

  ghost predicate HasLiteral(source: string, start: nat) {
    exists end: nat :: Written(source, start, end)
  }

  /** A closing parenthesis follows. */
  ghost predicate Closes(source: string, end: nat) {
    exists close: nat :: Leads(source, end, close, ')')
  }

  lemma {:induction false} CallsAre(s: string, n: nat, i: nat)
    requires n <= |s|
    ensures i in CallsBefore(s, n) <==> i < n && IsCallAt(s, i)
  {
    hide IsCallAt;
    if n > 0 {
      CallsAre(s, n - 1, i);
    }
  }

  lemma {:induction false} CallsRise(s: string, n: nat)
    requires n <= |s|
    ensures Distinct(CallsBefore(s, n)) && forall k | 0 <= k < |CallsBefore(s, n)| :: CallsBefore(s, n)[k] < n
  {
    hide IsCallAt;
    if n > 0 {
      CallsRise(s, n - 1);
    }
  }

  lemma OnlyCallIff(source: string, i: nat)
    ensures OnlyCall(source, i) <==> CallsBefore(source, |source|) == [i]
  {
    hide IsCallAt, CallsBefore;
    var calls := CallsBefore(source, |source|);
    CallsRise(source, |source|);
    forall j: nat ensures j in calls <==> j < |source| && IsCallAt(source, j) {
      CallsAre(source, |source|, j);
    }
    if OnlyCall(source, i) {
      SameIsOne(calls, i);
    }
  }

  lemma SameIsOne(xs: seq<nat>, x: nat)
    requires Distinct(xs) && x in xs && forall y | y in xs :: y == x
    ensures xs == [x]
  {
    assert |xs| > 1 ==> xs[0] != xs[1];
    assert forall k | 0 <= k < |xs| :: xs[k] in xs;
  }

  lemma CallHasRoom(source: string, i: nat)
    requires i < |source| && IsCallAt(source, i)
    ensures i + |TARGET| <= |source|
  {
  }

  lemma {:induction false} LeadsIff(source: string, from: nat, at: nat, c: char)
    requires !IsSpace(c) && from <= |source|
    ensures Leads(source, from, at, c) <==> at == SkipSpace(source, from) < |source| && source[at] == c
    decreases |source| - from
  {
    if from < |source| && IsSpace(source[from]) {
      LeadsIff(source, from + 1, at, c);
      if Leads(source, from, at, c) {
        assert from != at;
      }
    }
  }

  lemma WrittenIff(source: string, start: nat, end: nat)
    requires start <= |source|
    ensures Written(source, start, end) <==> ValueAt(source, start).Ok? && ValueAt(source, start).pos == end
  {
    hide ValueAt, Good, Spell, Meaning;
    if Written(source, start, end) {
      var x :| Good(x) && source[start..end] == Spell(x);
      StandsHere(source, start, end);
      Complete(source, start, x);
    }
    if ValueAt(source, start).Ok? && ValueAt(source, start).pos == end {
      var x := Sound(source, start);
    }
  }

  lemma WrittenBound(source: string, start: nat, end: nat)
    requires Written(source, start, end)
    ensures start <= |source|
  {
  }

  /** Exactly one answer fits a text, and it is the one given.  The argument is cut out if and
      only if the text has one call, behind it an opening parenthesis, a literal of the grammar
      just where it is cut out, and a closing parenthesis; and each error has its own reason. */
  lemma ExtractMeans(source: string)
    ensures match ExtractLiteral(source)
            case Literal(start, end) => exists i: nat ::
              && OnlyCall(source, i) && start > 0 && Opens(source, i, start - 1)
              && Written(source, start, end) && Closes(source, end)
            case NotExactlyOneCall => forall i: nat :: !OnlyCall(source, i)
            case NotCalledWithLiteral =>
              exists i: nat :: OnlyCall(source, i) && forall open: nat :: !Opens(source, i, open)
            case BadLiteral(_) => exists i: nat, open: nat ::
              OnlyCall(source, i) && Opens(source, i, open) && !HasLiteral(source, open + 1)
            case NotClosed => exists i: nat, open: nat, end: nat ::
              OnlyCall(source, i) && Opens(source, i, open) && Written(source, open + 1, end) && !Closes(source, end)
  {
    hide ValueAt, IsCallAt, CallsBefore, Written, OnlyCall, Leads;
    var calls := CallsBefore(source, |source|);
    forall i: nat ensures OnlyCall(source, i) <==> calls == [i] {
      OnlyCallIff(source, i);
    }
    if |calls| == 1 {
      var i := calls[0];
      assert calls == [i];
      CallsFit(source, |source|, 0);
      CallHasRoom(source, i);
      var from := i + |TARGET|;
      forall open: nat
        ensures Opens(source, i, open) <==> open == SkipSpace(source, from) < |source| && source[open] == '('
      {
        LeadsIff(source, from, open, '(');
      }
      var open := SkipSpace(source, from);
      if open < |source| && source[open] == '(' {
        AnswerBehind(source, open + 1);
      }
    }
  }

  /** What is behind the opening parenthesis. */
  lemma AnswerBehind(source: string, start: nat)
    requires start <= |source|
    ensures var p := ValueAt(source, start);
            && (p.Err? <==> !HasLiteral(source, start))
            && (p.Ok? ==> Written(source, start, p.pos))
            && (p.Ok? ==> (Closes(source, p.pos) <==>
                  SkipSpace(source, p.pos) < |source| && source[SkipSpace(source, p.pos)] == ')'))
  {
    hide ValueAt, Written, Leads;
    var p := ValueAt(source, start);
    forall end: nat ensures Written(source, start, end) <==> p.Ok? && p.pos == end {
      WrittenIff(source, start, end);
    }
    if p.Ok? {
      assert Written(source, start, p.pos);
      forall close: nat
        ensures Leads(source, p.pos, close, ')') <==>
          close == SkipSpace(source, p.pos) < |source| && source[close] == ')'
      {
        LeadsIff(source, p.pos, close, ')');
      }
    }
  }

  /** The converse: a text of this shape has its argument cut out. */
  lemma ShapeIsExtracted(source: string, i: nat, start: nat, end: nat)
    requires OnlyCall(source, i) && start > 0 && Opens(source, i, start - 1)
    requires Written(source, start, end) && Closes(source, end)
    ensures ExtractLiteral(source) == Literal(start, end)
  {
    hide ValueAt, IsCallAt, CallsBefore, Written, OnlyCall, Leads;
    OnlyCallIff(source, i);
    CallsFit(source, |source|, 0);
    CallHasRoom(source, i);
    LeadsIff(source, i + |TARGET|, start - 1, '(');
    WrittenBound(source, start, end);
    AnswerBehind(source, start);
    WrittenIff(source, start, end);
  }

  /** The text that was cut out parses again, on its own, to the value it had in place, and
      nothing of it is left over: the second parse of a call can never fail. */
  lemma ExtractedParsesAgain(source: string)
    requires ExtractLiteral(source).Literal?
    ensures var x := ExtractLiteral(source);
            var text := source[x.start..x.end];
            var v := ValueAt(source, x.start);
            v.Ok? && ValueAt(text, 0) == Ok(v.value, |text|) && ParseWhole(text) == Accepted(v.value)
  {
    var x := ExtractLiteral(source);
    var text := source[x.start..x.end];
    assert Stands(text, 0, text);
    Local(source, x.start, text, 0);
  }
}
