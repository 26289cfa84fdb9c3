/**
 The language of plan literals, stated without a parser: a syntax tree records every
 choice a writer has (blanks, quotes, escapes, bare or quoted keys, trailing commas),
 `Spell` writes it out and `Meaning` is the value it denotes.

 `Complete` and `Sound` say that the parser of `PlanLiteral` accepts exactly the
 spellings of well-formed trees, with their meanings.  That a parse depends only on
 the characters it consumes, and that printing and parsing round-trip, follow.
 */
module PlanGrammar {
  import opened PlanLiteral

  /** One unit of a quoted string. */
  datatype Piece =
    | Plain(c: char)
    | Short(c: char)
    | CodeUnit(h: string)
    | SurrogatePair(high: string, low: string)

  datatype Quoted = Quoted(quote: char, pieces: seq<Piece>)

  datatype Key = Bare(word: string) | QuotedKey(quoted: Quoted)

  datatype Syntax =
    | StringSyntax(blank: string, quoted: Quoted)
    | ArraySyntax(blank: string, elements: Elements)
    | ObjectSyntax(blank: string, members: Members)

  /** What follows an opening bracket, or a comma inside an array. */
  datatype Elements =
    | NoElements(blank: string)
    | Element(value: Syntax, more: MoreElements)

  datatype MoreElements = EndElements(blank: string) | CommaElements(blank: string, rest: Elements)

  /** What follows an opening brace, or a comma inside an object. */
  datatype Members =
    | NoMembers(blank: string)
    | Member(blank: string, key: Key, beforeColon: string, value: Syntax, more: MoreMembers)

  datatype MoreMembers = EndMembers(blank: string) | CommaMembers(blank: string, rest: Members)

  // ---------------------------------------------------------------- spelling

  function SpellPiece(p: Piece): string {
    match p
    case Plain(c) => [c]
    case Short(c) => ['\\', c]
    case CodeUnit(h) => "\\u" + h
    case SurrogatePair(high, low) => "\\u" + (high + ("\\u" + low))
  }

  function SpellPieces(ps: seq<Piece>): string {
    if ps == [] then "" else SpellPiece(ps[0]) + SpellPieces(ps[1..])
  }

  function SpellQuoted(q: Quoted): string {
    [q.quote] + (SpellPieces(q.pieces) + [q.quote])
  }

  function SpellKey(k: Key): string {
    match k
    case Bare(word) => word
    case QuotedKey(q) => SpellQuoted(q)
  }

  function Spell(x: Syntax): string {
    match x
    case StringSyntax(blank, q) => blank + SpellQuoted(q)
    case ArraySyntax(blank, es) => blank + (['['] + SpellElements(es))
    case ObjectSyntax(blank, ms) => blank + (['{'] + SpellMembers(ms))
  }

  function SpellElements(es: Elements): string {
    match es
    case NoElements(blank) => blank + [']']
    case Element(v, more) => Spell(v) + SpellMoreElements(more)
  }

  function SpellMoreElements(more: MoreElements): string {
    match more
    case EndElements(blank) => blank + [']']
    case CommaElements(blank, rest) => blank + ([','] + SpellElements(rest))
  }

  function SpellMembers(ms: Members): string {
    match ms
    case NoMembers(blank) => blank + ['}']
    case Member(blank, key, beforeColon, v, more) =>
      blank + (SpellKey(key) + (beforeColon + ([':'] + (Spell(v) + SpellMoreMembers(more)))))
  }

  function SpellMoreMembers(more: MoreMembers): string {
    match more
    case EndMembers(blank) => blank + ['}']
    case CommaMembers(blank, rest) => blank + ([','] + SpellMembers(rest))
  }

  // ---------------------------------------------------------------- well-formed trees

  predicate Blank(s: string) {
    forall i | 0 <= i < |s| :: IsSpace(s[i])
  }

  predicate GoodPiece(p: Piece, quote: char) {
    match p
    case Plain(c) => c != quote && c != '\\'
    case Short(c) => IsSimpleEscape(c)
    case CodeUnit(h) => IsHex4(h) && !IsSurrogate(Hex4(h))
    case SurrogatePair(high, low) =>
      IsHex4(high) && IsHex4(low) && IsHighSurrogate(Hex4(high)) && IsLowSurrogate(Hex4(low))
  }

  predicate GoodPieces(ps: seq<Piece>, quote: char) {
    ps == [] || (GoodPiece(ps[0], quote) && GoodPieces(ps[1..], quote))
  }

  predicate GoodQuoted(q: Quoted) {
    IsQuote(q.quote) && GoodPieces(q.pieces, q.quote)
  }

  predicate GoodKey(k: Key) {
    match k
    case Bare(word) => word != "" && forall i | 0 <= i < |word| :: IsIdentifier(word[i])
    case QuotedKey(q) => GoodQuoted(q)
  }

  predicate Good(x: Syntax) {
    match x
    case StringSyntax(blank, q) => Blank(blank) && GoodQuoted(q)
    case ArraySyntax(blank, es) => Blank(blank) && GoodElements(es)
    case ObjectSyntax(blank, ms) => Blank(blank) && GoodMembers(ms, NO_FIELDS.Keys)
  }

  predicate GoodElements(es: Elements) {
    match es
    case NoElements(blank) => Blank(blank)
    case Element(v, more) => Good(v) && GoodMoreElements(more)
  }

  predicate GoodMoreElements(more: MoreElements) {
    Blank(more.blank) && (more.CommaElements? ==> GoodElements(more.rest))
  }

  /** The keys already used may not be used again. */
  predicate GoodMembers(ms: Members, used: set<string>) {
    match ms
    case NoMembers(blank) => Blank(blank)
    case Member(blank, key, beforeColon, v, more) =>
      && Blank(blank) && GoodKey(key) && Blank(beforeColon) && Good(v)
      && KeyMeaning(key) !in used
      && GoodMoreMembers(more, used + {KeyMeaning(key)})
  }

  predicate GoodMoreMembers(more: MoreMembers, used: set<string>) {
    Blank(more.blank) && (more.CommaMembers? ==> GoodMembers(more.rest, used))
  }

  // ---------------------------------------------------------------- meaning

  function PieceMeaning(p: Piece, quote: char): string
    requires GoodPiece(p, quote)
  {
    match p
    case Plain(c) => [c]
    case Short(c) => [SimpleEscape(c)]
    case CodeUnit(h) => Utf8(Hex4(h))
    case SurrogatePair(high, low) => Utf8(JoinSurrogates(Hex4(high), Hex4(low)))
  }

  function PiecesMeaning(ps: seq<Piece>, quote: char): string
    requires GoodPieces(ps, quote)
  {
    if ps == [] then "" else PieceMeaning(ps[0], quote) + PiecesMeaning(ps[1..], quote)
  }

  function QuotedMeaning(q: Quoted): string
    requires GoodQuoted(q)
  {
    PiecesMeaning(q.pieces, q.quote)
  }

  function KeyMeaning(k: Key): string
    requires GoodKey(k)
  {
    match k
    case Bare(word) => word
    case QuotedKey(q) => QuotedMeaning(q)
  }

  const NO_FIELDS: map<string, Value> := map[]

  function Meaning(x: Syntax): Value
    requires Good(x)
  {
    match x
    case StringSyntax(_, q) => Text(QuotedMeaning(q))
    case ArraySyntax(_, es) => List(ElementsMeaning(es, []))
    case ObjectSyntax(_, ms) => Object(MembersMeaning(ms, NO_FIELDS))
  }

  /** The items of an array whose earlier items are `items`. */
  function ElementsMeaning(es: Elements, items: seq<Value>): seq<Value>
    requires GoodElements(es)
  {
    match es
    case NoElements(_) => items
    case Element(v, more) => MoreElementsMeaning(more, items + [Meaning(v)])
  }

  function MoreElementsMeaning(more: MoreElements, items: seq<Value>): seq<Value>
    requires GoodMoreElements(more)
  {
    match more
    case EndElements(_) => items
    case CommaElements(_, rest) => ElementsMeaning(rest, items)
  }

  /** The fields of an object whose earlier fields are `fields`. */
  function MembersMeaning(ms: Members, fields: map<string, Value>): map<string, Value>
    requires GoodMembers(ms, fields.Keys)
  {
    match ms
    case NoMembers(_) => fields
    case Member(_, key, _, v, more) =>
      var fields' := fields[KeyMeaning(key) := Meaning(v)];
      assert fields'.Keys == fields.Keys + {KeyMeaning(key)};
      MoreMembersMeaning(more, fields')
  }

  function MoreMembersMeaning(more: MoreMembers, fields: map<string, Value>): map<string, Value>
    requires GoodMoreMembers(more, fields.Keys)
  {
    match more
    case EndMembers(_) => fields
    case CommaMembers(_, rest) => MembersMeaning(rest, fields)
  }

  // ---------------------------------------------------------------- texts standing in texts

  /** The text `t` stands in `s` at position `i`. */
  predicate Stands(s: string, i: nat, t: string) {
    i + |t| <= |s| && forall k | 0 <= k < |t| :: t[k] == s[i + k]
  }

  lemma StandsBoth(s: string, i: nat, t: string, u: string)
    ensures Stands(s, i, t + u) <==> Stands(s, i, t) && Stands(s, i + |t|, u)
  {
    if Stands(s, i, t + u) {
      forall k | 0 <= k < |t| ensures t[k] == s[i + k] {
        assert (t + u)[k] == t[k];
      }
      forall k | 0 <= k < |u| ensures u[k] == s[i + |t| + k] {
        assert (t + u)[|t| + k] == u[k];
      }
    }
  }

  lemma StandsFirst(s: string, i: nat, c: char, u: string)
    ensures Stands(s, i, [c] + u) <==> i < |s| && s[i] == c && Stands(s, i + 1, u)
  {
    StandsBoth(s, i, [c], u);
    assert Stands(s, i, [c]) ==> [c][0] == s[i + 0];
  }

  lemma StandsChar(s: string, i: nat, c: char)
    ensures Stands(s, i, [c]) <==> i < |s| && s[i] == c
  {
    assert Stands(s, i, [c]) ==> [c][0] == s[i + 0];
  }

  lemma StandsHere(s: string, i: nat, j: nat)
    requires i <= j <= |s|
    ensures Stands(s, i, s[i..j])
  {
  }

  lemma StandsIsSlice(s: string, i: nat, t: string)
    requires Stands(s, i, t)
    ensures s[i..i + |t|] == t
  {
  }

  // ---------------------------------------------------------------- trees laid out in a text

  // `Laid(s, i, x)` says the same as `Stands(s, i, Spell(x))`, but part by part, with the
  // positions of the parts instead of their concatenation.

  ghost predicate Laid(s: string, i: nat, x: Syntax)
    decreases x
  {
    && Stands(s, i, x.blank)
    && var j := i + |x.blank|;
       match x
       case StringSyntax(_, q) => Stands(s, j, SpellQuoted(q))
       case ArraySyntax(_, es) => j < |s| && s[j] == '[' && LaidElements(s, j + 1, es)
       case ObjectSyntax(_, ms) => j < |s| && s[j] == '{' && LaidMembers(s, j + 1, ms)
  }

  ghost predicate LaidElements(s: string, i: nat, es: Elements)
    decreases es
  {
    match es
    case NoElements(blank) => Stands(s, i, blank) && Stands(s, i + |blank|, [']'])
    case Element(v, more) => Laid(s, i, v) && LaidMoreElements(s, i + |Spell(v)|, more)
  }

  ghost predicate LaidMoreElements(s: string, i: nat, more: MoreElements)
    decreases more
  {
    && Stands(s, i, more.blank)
    && var j := i + |more.blank|;
       && j < |s|
       && (more.EndElements? ==> s[j] == ']')
       && (more.CommaElements? ==> s[j] == ',' && LaidElements(s, j + 1, more.rest))
  }

  ghost predicate LaidMembers(s: string, i: nat, ms: Members)
    decreases ms
  {
    match ms
    case NoMembers(blank) => Stands(s, i, blank) && Stands(s, i + |blank|, ['}'])
    case Member(blank, key, beforeColon, v, more) =>
      && LaidHead(s, i, blank, key, beforeColon)
      && var k := HeadEnd(i, blank, key, beforeColon);
         Laid(s, k, v) && LaidMoreMembers(s, k + |Spell(v)|, more)
  }

  ghost predicate LaidMoreMembers(s: string, i: nat, more: MoreMembers)
    decreases more
  {
    && Stands(s, i, more.blank)
    && var j := i + |more.blank|;
       && j < |s|
       && (more.EndMembers? ==> s[j] == '}')
       && (more.CommaMembers? ==> s[j] == ',' && LaidMembers(s, j + 1, more.rest))
  }

  /** The blanks, key, blanks and colon that open a member. */
  ghost predicate LaidHead(s: string, i: nat, blank: string, key: Key, beforeColon: string) {
    && Stands(s, i, blank)
    && Stands(s, i + |blank|, SpellKey(key))
    && Stands(s, i + |blank| + |SpellKey(key)|, beforeColon)
    && var colon := HeadEnd(i, blank, key, beforeColon) - 1;
       colon < |s| && s[colon] == ':'
  }

  function HeadEnd(i: nat, blank: string, key: Key, beforeColon: string): (k: nat)
    ensures k > i
  {
    i + |blank| + |SpellKey(key)| + |beforeColon| + 1
  }

  lemma {:induction false} LaidIsSpelled(s: string, i: nat, x: Syntax)
    ensures Laid(s, i, x) <==> Stands(s, i, Spell(x))
    decreases x
  {
    hide Stands, SpellQuoted, SpellElements, SpellMembers, LaidElements, LaidMembers;
    var j := i + |x.blank|;
    match x
    case StringSyntax(blank, q) =>
      StandsBoth(s, i, blank, SpellQuoted(q));
    case ArraySyntax(blank, es) =>
      StandsBoth(s, i, blank, ['['] + SpellElements(es));
      StandsFirst(s, j, '[', SpellElements(es));
      LaidElementsAreSpelled(s, j + 1, es);
    case ObjectSyntax(blank, ms) =>
      StandsBoth(s, i, blank, ['{'] + SpellMembers(ms));
      StandsFirst(s, j, '{', SpellMembers(ms));
      LaidMembersAreSpelled(s, j + 1, ms);
  }

  lemma {:induction false} LaidElementsAreSpelled(s: string, i: nat, es: Elements)
    ensures LaidElements(s, i, es) <==> Stands(s, i, SpellElements(es))
    decreases es
  {
    match es
    case NoElements(blank) =>
      StandsBoth(s, i, blank, [']']);
    case Element(v, more) =>
      LaidIsSpelled(s, i, v);
      StandsBoth(s, i, Spell(v), SpellMoreElements(more));
      LaidMoreElementsAreSpelled(s, i + |Spell(v)|, more);
  }

  lemma {:induction false} LaidMoreElementsAreSpelled(s: string, i: nat, more: MoreElements)
    ensures LaidMoreElements(s, i, more) <==> Stands(s, i, SpellMoreElements(more))
    decreases more
  {
    hide Stands, SpellElements, LaidElements;
    match more
    case EndElements(blank) =>
      StandsBoth(s, i, blank, [']']);
      StandsChar(s, i + |blank|, ']');
    case CommaElements(blank, rest) =>
      StandsBoth(s, i, blank, [','] + SpellElements(rest));
      StandsFirst(s, i + |blank|, ',', SpellElements(rest));
      LaidElementsAreSpelled(s, i + |blank| + 1, rest);
  }

  lemma FourStand(s: string, i: nat, a: string, b: string, c: string, rest: string)
    ensures Stands(s, i, a + (b + (c + ([':'] + rest))))
      <==> && Stands(s, i, a) && Stands(s, i + |a|, b) && Stands(s, i + |a| + |b|, c)
           && i + |a| + |b| + |c| < |s| && s[i + |a| + |b| + |c|] == ':' && Stands(s, i + |a| + |b| + |c| + 1, rest)
  {
    StandsBoth(s, i, a, b + (c + ([':'] + rest)));
    StandsBoth(s, i + |a|, b, c + ([':'] + rest));
    StandsBoth(s, i + |a| + |b|, c, [':'] + rest);
    StandsFirst(s, i + |a| + |b| + |c|, ':', rest);
  }

  lemma LaidHeadIsSpelled(s: string, i: nat, blank: string, key: Key, beforeColon: string, rest: string)
    ensures Stands(s, i, blank + (SpellKey(key) + (beforeColon + ([':'] + rest))))
      <==> LaidHead(s, i, blank, key, beforeColon) && Stands(s, HeadEnd(i, blank, key, beforeColon), rest)
  {
    FourStand(s, i, blank, SpellKey(key), beforeColon, rest);
  }

  lemma {:induction false} LaidMembersAreSpelled(s: string, i: nat, ms: Members)
    ensures LaidMembers(s, i, ms) <==> Stands(s, i, SpellMembers(ms))
    decreases ms
  {
    hide Spell, SpellMoreMembers, Laid, LaidMoreMembers, LaidHead, SpellKey;
    match ms
    case NoMembers(blank) =>
      StandsBoth(s, i, blank, ['}']);
    case Member(blank, key, beforeColon, v, more) =>
      LaidHeadIsSpelled(s, i, blank, key, beforeColon, Spell(v) + SpellMoreMembers(more));
      var j := HeadEnd(i, blank, key, beforeColon);
      LaidIsSpelled(s, j, v);
      StandsBoth(s, j, Spell(v), SpellMoreMembers(more));
      LaidMoreMembersAreSpelled(s, j + |Spell(v)|, more);
  }

  lemma {:induction false} LaidMoreMembersAreSpelled(s: string, i: nat, more: MoreMembers)
    ensures LaidMoreMembers(s, i, more) <==> Stands(s, i, SpellMoreMembers(more))
    decreases more
  {
    hide Stands, SpellMembers, LaidMembers;
    match more
    case EndMembers(blank) =>
      StandsBoth(s, i, blank, ['}']);
      StandsChar(s, i + |blank|, '}');
    case CommaMembers(blank, rest) =>
      StandsBoth(s, i, blank, [','] + SpellMembers(rest));
      StandsFirst(s, i + |blank|, ',', SpellMembers(rest));
      LaidMembersAreSpelled(s, i + |blank| + 1, rest);
  }
}
