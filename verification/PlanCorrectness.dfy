/**
 The plan literal parser accepts exactly the language of `PlanGrammar`: every spelling
 of a well-formed tree parses to the tree's meaning (`Complete`), and every successful
 parse has read the spelling of some well-formed tree (`Sound`).

 Completeness follows the tree: a lemma for each kind of piece says that the parser, put in
 front of the piece, takes one step and stops behind it.  Soundness follows the parser: a
 lemma for each parsing function finds the piece that was read.  Both work with `Laid`,
 which gives the position of every part, instead of with concatenated spellings.  That a
 parse depends only on the characters it consumed (`Local`) follows from the two together.
 */
module PlanCorrectness {
  import opened PlanLiteral
  import opened PlanGrammar

  // ---------------------------------------------------------------- completeness

  /** Blanks are skipped, up to the first character that is none. */
  lemma {:induction false} SkipBlank(s: string, i: nat, blank: string)
    requires Stands(s, i, blank) && Blank(blank)
    requires i + |blank| < |s| ==> !IsSpace(s[i + |blank|])
    ensures SkipSpace(s, i) == i + |blank|
    decreases |blank|
  {
    if blank != "" {
      assert blank[0] == s[i + 0];
      assert Stands(s, i + 1, blank[1..]) by {
        forall k | 0 <= k < |blank[1..]| ensures blank[1..][k] == s[i + 1 + k] {
          assert blank[k + 1] == s[i + (k + 1)];
        }
      }
      SkipBlank(s, i + 1, blank[1..]);
    }
  }

  lemma {:induction false} SkipIdentifier(s: string, i: nat, word: string)
    requires Stands(s, i, word) && forall k | 0 <= k < |word| :: IsIdentifier(word[k])
    requires i + |word| < |s| ==> !IsIdentifier(s[i + |word|])
    ensures SkipWord(s, i) == i + |word|
    decreases |word|
  {
    if word != "" {
      assert word[0] == s[i + 0];
      assert Stands(s, i + 1, word[1..]) by {
        forall k | 0 <= k < |word[1..]| ensures word[1..][k] == s[i + 1 + k] {
          assert word[k + 1] == s[i + (k + 1)];
        }
      }
      SkipIdentifier(s, i + 1, word[1..]);
    }
  }

  lemma HexComplete(s: string, i: nat, h: string)
    requires Stands(s, i, h) && IsHex4(h)
    ensures HexRuneAt(s, i) == Ok(Hex4(h), i + 4)
  {
    StandsIsSlice(s, i, h);
  }

  lemma UnicodeMark(s: string, i: nat, rest: string)
    requires Stands(s, i, "\\u" + rest)
    ensures i + 2 <= |s| && s[i] == '\\' && s[i + 1] == 'u' && s[i..i + 2] == "\\u" && Stands(s, i + 2, rest)
  {
    StandsBoth(s, i, "\\u", rest);
    StandsIsSlice(s, i, "\\u");
    assert s[i..i + 2][0] == s[i] && s[i..i + 2][1] == s[i + 1];
  }

  lemma EscapeComplete(s: string, i: nat, p: Piece, quote: char)
    requires Stands(s, i, SpellPiece(p)) && GoodPiece(p, quote) && !p.Plain?
    ensures i < |s| && s[i] == '\\'
    ensures EscapeAt(s, i + 1) == Ok(PieceMeaning(p, quote), i + |SpellPiece(p)|)
  {
    match p
    case Short(c) =>
      assert SpellPiece(p)[0] == s[i + 0] && SpellPiece(p)[1] == s[i + 1];
    case CodeUnit(h) =>
      UnicodeMark(s, i, h);
      HexComplete(s, i + 2, h);
    case SurrogatePair(high, low) =>
      UnicodeMark(s, i, high + ("\\u" + low));
      StandsBoth(s, i + 2, high, "\\u" + low);
      HexComplete(s, i + 2, high);
      UnicodeMark(s, i + 6, low);
      HexComplete(s, i + 8, low);
  }

  /** One piece of a string, read as one step of the string. */
  lemma PieceComplete(s: string, i: nat, p: Piece, quote: char)
    requires IsQuote(quote) && GoodPiece(p, quote) && Stands(s, i, SpellPiece(p))
    ensures StringTailAt(s, i, quote) == Prepend(PieceMeaning(p, quote), StringTailAt(s, i + |SpellPiece(p)|, quote))
  {
    if p.Plain? {
      StandsChar(s, i, p.c);
    } else {
      EscapeComplete(s, i, p, quote);
    }
  }

  lemma {:induction false} PiecesComplete(s: string, i: nat, ps: seq<Piece>, quote: char)
    requires IsQuote(quote) && GoodPieces(ps, quote)
    requires Stands(s, i, SpellPieces(ps)) && Stands(s, i + |SpellPieces(ps)|, [quote])
    ensures StringTailAt(s, i, quote) == Ok(PiecesMeaning(ps, quote), i + |SpellPieces(ps)| + 1)
    decreases |ps|
  {
    if ps == [] {
      StandsChar(s, i, quote);
    } else {
      var p := ps[0];
      StandsBoth(s, i, SpellPiece(p), SpellPieces(ps[1..]));
      PieceComplete(s, i, p, quote);
      PiecesComplete(s, i + |SpellPiece(p)|, ps[1..], quote);
    }
  }

  lemma QuotedComplete(s: string, i: nat, q: Quoted)
    requires GoodQuoted(q) && Stands(s, i, SpellQuoted(q))
    ensures i < |s| && s[i] == q.quote
    ensures StringTailAt(s, i + 1, q.quote) == Ok(QuotedMeaning(q), i + |SpellQuoted(q)|)
  {
    StandsFirst(s, i, q.quote, SpellPieces(q.pieces) + [q.quote]);
    StandsBoth(s, i + 1, SpellPieces(q.pieces), [q.quote]);
    PiecesComplete(s, i + 1, q.pieces, q.quote);
  }

  /** A key is read whole, provided the next character cannot prolong it. */
  lemma KeyComplete(s: string, i: nat, k: Key)
    requires GoodKey(k) && Stands(s, i, SpellKey(k))
    requires i + |SpellKey(k)| < |s| && !IsIdentifier(s[i + |SpellKey(k)|])
    ensures i < |s| && s[i] != '}' && !IsSpace(s[i])
    ensures KeyAt(s, i) == Ok(KeyMeaning(k), i + |SpellKey(k)|)
  {
    match k
    case Bare(word) =>
      assert word[0] == s[i + 0];
      SkipIdentifier(s, i, word);
      StandsIsSlice(s, i, word);
    case QuotedKey(q) =>
      QuotedComplete(s, i, q);
  }

  /** A value starts, after its blanks, with a character that is no blank and closes nothing. */
  lemma ValueStart(s: string, i: nat, x: Syntax)
    requires Good(x) && Laid(s, i, x)
    ensures var j := i + |x.blank|;
            && SkipSpace(s, i) == j < |s| && SkipSpace(s, j) == j
            && s[j] == if x.StringSyntax? then x.quoted.quote else if x.ArraySyntax? then '[' else '{'
  {
    var j := i + |x.blank|;
    if x.StringSyntax? {
      QuotedComplete(s, j, x.quoted);
    }
    SkipBlank(s, i, x.blank);
  }

  lemma {:induction false} LaidComplete(s: string, i: nat, x: Syntax)
    requires Good(x) && Laid(s, i, x)
    ensures ValueAt(s, i) == Ok(Meaning(x), i + |Spell(x)|)
    decreases x, 0
  {
    hide MembersAt, ElementsAt, StringTailAt, SkipSpace, LaidElements, LaidMembers, SpellElements, SpellMembers,
      ElementsMeaning, MembersMeaning, GoodElements, GoodMembers;
    var j := i + |x.blank|;
    ValueStart(s, i, x);
    match x
    case StringSyntax(_, q) => QuotedComplete(s, j, q);
    case ArraySyntax(_, es) => ElementsComplete(s, j + 1, es, []);
    case ObjectSyntax(_, ms) => MembersComplete(s, j + 1, ms, NO_FIELDS);
  }

  lemma NoElementsComplete(s: string, i: nat, blank: string, items: seq<Value>)
    requires Blank(blank) && Stands(s, i, blank) && Stands(s, i + |blank|, [']'])
    ensures i <= |s| && ElementsAt(s, i, items) == Ok(items, i + |blank| + 1)
  {
    StandsChar(s, i + |blank|, ']');
    SkipBlank(s, i, blank);
  }

  lemma ElementParts(es: Elements, items: seq<Value>)
    requires es.Element? && GoodElements(es)
    ensures |SpellElements(es)| == |Spell(es.value)| + |SpellMoreElements(es.more)|
    ensures ElementsMeaning(es, items) == MoreElementsMeaning(es.more, items + [Meaning(es.value)])
  {
  }

  lemma {:induction false} ElementsComplete(s: string, i: nat, es: Elements, items: seq<Value>)
    requires GoodElements(es) && LaidElements(s, i, es)
    ensures i <= |s| && ElementsAt(s, i, items) == Ok(ElementsMeaning(es, items), i + |SpellElements(es)|)
    decreases es
  {
    hide Good, Laid, Spell, Meaning, ElementsAt, MoreElementsAt, SpellMoreElements, MoreElementsMeaning,
      GoodMoreElements, LaidMoreElements, Stands, Blank;
    match es
    case NoElements(blank) => NoElementsComplete(s, i, blank, items);
    case Element(v, more) =>
      ElementRound(s, i, v, items);
      MoreElementsComplete(s, i + |Spell(v)|, more, items + [Meaning(v)]);
      ElementParts(es, items);
  }

  lemma ElementStep(s: string, i: nat, items: seq<Value>, value: Value, pos: nat)
    requires i <= |s| && SkipSpace(s, i) < |s| && s[SkipSpace(s, i)] != ']'
    requires ValueAt(s, SkipSpace(s, i)) == Ok(value, pos)
    ensures pos <= |s| && ElementsAt(s, i, items) == MoreElementsAt(s, pos, items + [value])
  {
  }

  lemma {:induction false} ElementRound(s: string, i: nat, v: Syntax, items: seq<Value>)
    requires Good(v) && Laid(s, i, v)
    ensures i + |Spell(v)| <= |s|
    ensures ElementsAt(s, i, items) == MoreElementsAt(s, i + |Spell(v)|, items + [Meaning(v)])
    decreases v, 1
  {
    hide *;
    NotClosing(s, i, v);
    BlanksBefore(s, i);
    LaidComplete(s, i, v);
    ElementStep(s, i, items, Meaning(v), i + |Spell(v)|);
  }

  lemma NotClosing(s: string, i: nat, x: Syntax)
    requires Good(x) && Laid(s, i, x)
    ensures SkipSpace(s, i) < |s| && s[SkipSpace(s, i)] != ']'
  {
    ValueStart(s, i, x);
  }

  lemma {:induction false} MoreElementsComplete(s: string, i: nat, more: MoreElements, items: seq<Value>)
    requires GoodMoreElements(more) && LaidMoreElements(s, i, more)
    ensures i <= |s|
      && MoreElementsAt(s, i, items) == Ok(MoreElementsMeaning(more, items), i + |SpellMoreElements(more)|)
    decreases more
  {
    hide ElementsAt, SpellElements, ElementsMeaning, GoodElements, LaidElements, Blank, Stands;
    SkipBlank(s, i, more.blank);
    if more.CommaElements? {
      ElementsComplete(s, i + |more.blank| + 1, more.rest, items);
    }
  }

  /** A colon after blanks ends a key. */
  lemma ColonEnds(s: string, k: nat, beforeColon: string)
    requires Blank(beforeColon) && Stands(s, k, beforeColon)
    requires k + |beforeColon| < |s| && s[k + |beforeColon|] == ':'
    ensures k < |s| && !IsIdentifier(s[k]) && SkipSpace(s, k) == k + |beforeColon|
  {
    SkipBlank(s, k, beforeColon);
    if beforeColon != "" {
      assert beforeColon[0] == s[k + 0];
    }
  }

  /** A member's key and colon. */
  lemma HeadComplete(s: string, i: nat, blank: string, key: Key, beforeColon: string)
    requires Blank(blank) && GoodKey(key) && Blank(beforeColon) && LaidHead(s, i, blank, key, beforeColon)
    ensures var j := i + |blank|;
            var k := j + |SpellKey(key)|;
            && i <= |s| && SkipSpace(s, i) == j < |s| && s[j] != '}' && KeyAt(s, j) == Ok(KeyMeaning(key), k)
            && k <= |s| && SkipSpace(s, k) == k + |beforeColon| < |s| && s[k + |beforeColon|] == ':'
  {
    hide KeyAt, GoodKey, KeyMeaning, SpellKey, SkipSpace, Blank, Stands;
    ColonEnds(s, i + |blank| + |SpellKey(key)|, beforeColon);
    KeyComplete(s, i + |blank|, key);
    SkipBlank(s, i, blank);
  }

  lemma HeadStep(s: string, i: nat, fields: map<string, Value>, key: string, k: nat)
    requires i <= |s| && SkipSpace(s, i) < |s| && s[SkipSpace(s, i)] != '}'
    requires KeyAt(s, SkipSpace(s, i)) == Ok(key, k) && key !in fields
    requires SkipSpace(s, k) < |s| && s[SkipSpace(s, k)] == ':'
    ensures MembersAt(s, i, fields) == FieldAt(s, SkipSpace(s, k) + 1, fields, key)
  {
  }

  lemma HeadRound(s: string, i: nat, blank: string, key: Key, beforeColon: string, fields: map<string, Value>)
    requires Blank(blank) && GoodKey(key) && Blank(beforeColon) && LaidHead(s, i, blank, key, beforeColon)
    requires KeyMeaning(key) !in fields
    ensures HeadEnd(i, blank, key, beforeColon) <= |s|
    ensures MembersAt(s, i, fields) == FieldAt(s, HeadEnd(i, blank, key, beforeColon), fields, KeyMeaning(key))
  {
    hide KeyAt, GoodKey, KeyMeaning, SpellKey, SkipSpace, Blank, Stands, LaidHead, MembersAt, FieldAt;
    HeadComplete(s, i, blank, key, beforeColon);
    HeadStep(s, i, fields, KeyMeaning(key), i + |blank| + |SpellKey(key)|);
  }

  lemma MemberWidth(ms: Members)
    requires ms.Member?
    ensures |SpellMembers(ms)|
         == HeadEnd(0, ms.blank, ms.key, ms.beforeColon) + |Spell(ms.value)| + |SpellMoreMembers(ms.more)|
  {
  }

  lemma MemberMeaning(ms: Members, fields: map<string, Value>)
    requires ms.Member? && GoodMembers(ms, fields.Keys)
    ensures var fields' := fields[KeyMeaning(ms.key) := Meaning(ms.value)];
            GoodMoreMembers(ms.more, fields'.Keys) && MembersMeaning(ms, fields) == MoreMembersMeaning(ms.more, fields')
  {
    assert fields[KeyMeaning(ms.key) := Meaning(ms.value)].Keys == fields.Keys + {KeyMeaning(ms.key)};
  }

  lemma {:induction false} MemberRound(s: string, i: nat, ms: Members, fields: map<string, Value>) returns (j: nat)
    requires ms.Member? && GoodMembers(ms, fields.Keys) && LaidMembers(s, i, ms)
    ensures LaidMoreMembers(s, j, ms.more) && i <= j <= |s| && j + |SpellMoreMembers(ms.more)| == i + |SpellMembers(ms)|
    ensures MembersAt(s, i, fields) == MoreMembersAt(s, j, fields[KeyMeaning(ms.key) := Meaning(ms.value)])
    decreases ms, 0
  {
    hide Good, Laid, Spell, Meaning, KeyMeaning, GoodKey, SpellKey, MembersAt, FieldAt, MoreMembersAt, LaidHead, Blank,
      LaidMoreMembers, SpellMoreMembers, GoodMoreMembers, SpellMembers;
    var k := HeadEnd(i, ms.blank, ms.key, ms.beforeColon);
    j := k + |Spell(ms.value)|;
    MemberWidth(ms);
    HeadRound(s, i, ms.blank, ms.key, ms.beforeColon, fields);
    FieldRound(s, k, ms.value, fields, KeyMeaning(ms.key));
  }

  lemma NoMembersComplete(s: string, i: nat, blank: string, fields: map<string, Value>)
    requires Blank(blank) && Stands(s, i, blank) && Stands(s, i + |blank|, ['}'])
    ensures i <= |s| && MembersAt(s, i, fields) == Ok(fields, i + |blank| + 1)
  {
    StandsChar(s, i + |blank|, '}');
    SkipBlank(s, i, blank);
  }

  lemma {:induction false} MembersComplete(s: string, i: nat, ms: Members, fields: map<string, Value>)
    requires GoodMembers(ms, fields.Keys) && LaidMembers(s, i, ms)
    ensures i <= |s| && MembersAt(s, i, fields) == Ok(MembersMeaning(ms, fields), i + |SpellMembers(ms)|)
    decreases ms, 1
  {
    hide Good, Laid, Spell, Meaning, KeyMeaning, GoodKey, MembersAt, MoreMembersAt, SpellMoreMembers,
      MoreMembersMeaning, GoodMoreMembers, LaidMoreMembers, LaidHead, Stands, Blank;
    match ms
    case NoMembers(blank) => NoMembersComplete(s, i, blank, fields);
    case Member(_, key, _, v, more) =>
      var j := MemberRound(s, i, ms, fields);
      MemberMeaning(ms, fields);
      MoreMembersComplete(s, j, more, fields[KeyMeaning(key) := Meaning(v)]);
  }

  lemma FieldStep(s: string, i: nat, fields: map<string, Value>, key: string, value: Value, pos: nat)
    requires i <= |s| && ValueAt(s, i) == Ok(value, pos)
    ensures pos <= |s| && FieldAt(s, i, fields, key) == MoreMembersAt(s, pos, fields[key := value])
  {
  }

  lemma {:induction false} FieldRound(s: string, i: nat, v: Syntax, fields: map<string, Value>, key: string)
    requires Good(v) && Laid(s, i, v)
    ensures i + |Spell(v)| <= |s|
    ensures FieldAt(s, i, fields, key) == MoreMembersAt(s, i + |Spell(v)|, fields[key := Meaning(v)])
    decreases v, 1
  {
    hide *;
    LaidComplete(s, i, v);
    FieldStep(s, i, fields, key, Meaning(v), i + |Spell(v)|);
  }

  lemma {:induction false} MoreMembersComplete(s: string, i: nat, more: MoreMembers, fields: map<string, Value>)
    requires GoodMoreMembers(more, fields.Keys) && LaidMoreMembers(s, i, more)
    ensures i <= |s|
      && MoreMembersAt(s, i, fields) == Ok(MoreMembersMeaning(more, fields), i + |SpellMoreMembers(more)|)
    decreases more
  {
    hide MembersAt, SpellMembers, MembersMeaning, GoodMembers, LaidMembers, Blank, Stands;
    SkipBlank(s, i, more.blank);
    if more.CommaMembers? {
      MembersComplete(s, i + |more.blank| + 1, more.rest, fields);
    }
  }

  /** Completeness: wherever a well-formed tree is spelled out, the parser reads its
      meaning and stops right behind it, whatever the text holds elsewhere. */
  lemma Complete(s: string, i: nat, x: Syntax)
    requires Good(x) && Stands(s, i, Spell(x))
    ensures ValueAt(s, i) == Ok(Meaning(x), i + |Spell(x)|)
  {
    LaidIsSpelled(s, i, x);
    LaidComplete(s, i, x);
  }

  // ---------------------------------------------------------------- soundness

  lemma {:induction false} SkippedBlank(s: string, i: nat) returns (blank: string)
    requires i <= |s|
    ensures Blank(blank) && Stands(s, i, blank) && i + |blank| == SkipSpace(s, i)
    ensures SkipSpace(s, i) < |s| ==> !IsSpace(s[SkipSpace(s, i)])
    decreases |s| - i
  {
    if i < |s| && IsSpace(s[i]) {
      var rest := SkippedBlank(s, i + 1);
      blank := [s[i]] + rest;
      StandsFirst(s, i, s[i], rest);
    } else {
      blank := "";
    }
  }

  /** Skipping the blanks before a value changes nothing but where it is thought to start. */
  lemma BlanksBefore(s: string, i: nat)
    requires i <= |s|
    ensures SkipSpace(s, SkipSpace(s, i)) == SkipSpace(s, i) && ValueAt(s, SkipSpace(s, i)) == ValueAt(s, i)
  {
    var _ := SkippedBlank(s, i);
  }

  lemma {:induction false} SkippedWord(s: string, i: nat)
    requires i <= |s|
    ensures forall k | i <= k < SkipWord(s, i) :: IsIdentifier(s[k])
    decreases |s| - i
  {
    if i < |s| && IsIdentifier(s[i]) {
      SkippedWord(s, i + 1);
    }
  }

  lemma EscapeSound(s: string, i: nat, quote: char) returns (p: Piece)
    requires i < |s| && s[i] == '\\' && EscapeAt(s, i + 1).Ok?
    ensures GoodPiece(p, quote) && Stands(s, i, SpellPiece(p))
  {
    if IsSimpleEscape(s[i + 1]) {
      p := Short(s[i + 1]);
    } else {
      var first := s[i + 2..i + 6];
      if !IsSurrogate(Hex4(first)) {
        p := CodeUnit(first);
        CodeUnitStands(s, i);
      } else {
        p := SurrogatePair(first, s[i + 8..i + 12]);
        CodeUnitStands(s, i + 6) by {
          assert s[i + 6] == s[i + 6..i + 8][0] && s[i + 7] == s[i + 6..i + 8][1];
        }
        CodeUnitStands(s, i);
        StandsBoth(s, i, "\\u", first);
        StandsBoth(s, i + 2, first, "\\u" + p.low);
        StandsBoth(s, i, "\\u", first + ("\\u" + p.low));
      }
    }
  }

  lemma CodeUnitStands(s: string, i: nat)
    requires i + 6 <= |s| && s[i] == '\\' && s[i + 1] == 'u'
    ensures Stands(s, i, "\\u" + s[i + 2..i + 6])
  {
    StandsHere(s, i + 2, i + 6);
    assert Stands(s, i, "\\u");
    StandsBoth(s, i, "\\u", s[i + 2..i + 6]);
  }

  lemma FirstPieceStands(s: string, i: nat, p: Piece, rest: seq<Piece>, quote: char)
    requires Stands(s, i, SpellPiece(p)) && Stands(s, i + |SpellPiece(p)|, SpellPieces(rest))
    requires Stands(s, i + |SpellPiece(p)| + |SpellPieces(rest)|, [quote])
    ensures Stands(s, i, SpellPieces([p] + rest)) && Stands(s, i + |SpellPieces([p] + rest)|, [quote])
  {
    assert ([p] + rest)[1..] == rest;
    StandsBoth(s, i, SpellPiece(p), SpellPieces(rest));
  }

  lemma FirstPieceSound(s: string, i: nat, quote: char) returns (p: Piece)
    requires i < |s| && s[i] != quote && StringTailAt(s, i, quote).Ok?
    ensures GoodPiece(p, quote) && Stands(s, i, SpellPiece(p))
  {
    if s[i] != '\\' {
      p := Plain(s[i]);
    } else {
      p := EscapeSound(s, i, quote);
    }
  }

  lemma FirstPieceGood(p: Piece, rest: seq<Piece>, quote: char)
    requires GoodPiece(p, quote) && GoodPieces(rest, quote)
    ensures GoodPieces([p] + rest, quote)
  {
    assert ([p] + rest)[1..] == rest;
  }

  lemma RestIsRead(s: string, i: nat, p: Piece, quote: char)
    requires i <= |s| && IsQuote(quote) && StringTailAt(s, i, quote).Ok?
    requires GoodPiece(p, quote) && Stands(s, i, SpellPiece(p))
    ensures i < i + |SpellPiece(p)| <= |s| && StringTailAt(s, i + |SpellPiece(p)|, quote).Ok?
  {
    PieceComplete(s, i, p, quote);
  }

  lemma {:induction false} StringSound(s: string, i: nat, quote: char) returns (ps: seq<Piece>)
    requires i <= |s| && IsQuote(quote) && StringTailAt(s, i, quote).Ok?
    ensures GoodPieces(ps, quote) && Stands(s, i, SpellPieces(ps)) && Stands(s, i + |SpellPieces(ps)|, [quote])
    decreases |s| - i
  {
    hide GoodPiece, SpellPiece, Prepend, EscapeAt;
    if s[i] == quote {
      ps := [];
    } else {
      var p := FirstPieceSound(s, i, quote);
      RestIsRead(s, i, p, quote);
      var rest := StringSound(s, i + |SpellPiece(p)|, quote);
      FirstPieceGood(p, rest, quote);
      FirstPieceStands(s, i, p, rest, quote);
      ps := [p] + rest;
    }
  }

  lemma QuotedSound(s: string, i: nat) returns (q: Quoted)
    requires i < |s| && IsQuote(s[i]) && StringTailAt(s, i + 1, s[i]).Ok?
    ensures GoodQuoted(q) && q.quote == s[i] && Stands(s, i, SpellQuoted(q))
  {
    var ps := StringSound(s, i + 1, s[i]);
    q := Quoted(s[i], ps);
    StandsBoth(s, i + 1, SpellPieces(ps), [s[i]]);
    StandsFirst(s, i, s[i], SpellPieces(ps) + [s[i]]);
  }

  lemma KeySound(s: string, i: nat) returns (k: Key)
    requires i <= |s| && SkipSpace(s, i) == i && KeyAt(s, i).Ok?
    ensures GoodKey(k) && Stands(s, i, SpellKey(k))
    ensures KeyAt(s, i) == Ok(KeyMeaning(k), i + |SpellKey(k)|)
  {
    if IsQuote(s[i]) {
      var q := QuotedSound(s, i);
      QuotedComplete(s, i, q);
      k := QuotedKey(q);
    } else {
      SkippedWord(s, i);
      k := Bare(s[i..SkipWord(s, i)]);
      StandsHere(s, i, SkipWord(s, i));
    }
  }

  lemma {:induction false} ValueSound(s: string, i: nat) returns (x: Syntax)
    requires i <= |s| && ValueAt(s, i).Ok?
    ensures Good(x) && Laid(s, i, x)
    decreases |s| - i, 0
  {
    hide GoodElements, LaidElements, GoodMembers, LaidMembers, GoodQuoted, SpellQuoted, MembersAt, ElementsAt,
      StringTailAt, Blank, Stands;
    var blank := SkippedBlank(s, i);
    var j := SkipSpace(s, i);
    if s[j] == '{' {
      var ms := MembersSound(s, j + 1, NO_FIELDS);
      x := ObjectSyntax(blank, ms);
    } else if s[j] == '[' {
      var es := ElementsSound(s, j + 1, []);
      x := ArraySyntax(blank, es);
    } else {
      var q := QuotedSound(s, j);
      x := StringSyntax(blank, q);
    }
  }

  lemma ElementRead(s: string, i: nat, items: seq<Value>)
    requires i <= |s| && ElementsAt(s, i, items).Ok? && s[SkipSpace(s, i)] != ']'
    ensures ValueAt(s, i).Ok? && MoreElementsAt(s, ValueAt(s, i).pos, items + [ValueAt(s, i).value]).Ok?
  {
    BlanksBefore(s, i);
  }

  lemma {:induction false} ElementsSound(s: string, i: nat, items: seq<Value>) returns (es: Elements)
    requires i <= |s| && ElementsAt(s, i, items).Ok?
    ensures GoodElements(es) && LaidElements(s, i, es)
    decreases |s| - i, 3
  {
    if s[SkipSpace(s, i)] == ']' {
      var blank := SkippedBlank(s, i);
      es := NoElements(blank);
      StandsChar(s, SkipSpace(s, i), ']');
    } else {
      ElementRead(s, i, items);
      es := ElementSound(s, i, ValueAt(s, i).pos, items + [ValueAt(s, i).value]);
    }
  }

  lemma {:induction false} ElementSound(s: string, i: nat, j: nat, items: seq<Value>) returns (es: Elements)
    requires i <= |s| && ValueAt(s, i).Ok? && ValueAt(s, i).pos == j && MoreElementsAt(s, j, items).Ok?
    ensures GoodElements(es) && LaidElements(s, i, es)
    decreases |s| - i, 2
  {
    hide Good, Laid, Spell, ValueAt, MoreElementsAt, GoodMoreElements, LaidMoreElements;
    var v := ValueSound(s, i);
    ValueWidth(s, i, v);
    var more := MoreElementsSound(s, j, items);
    es := Element(v, more);
  }

  lemma {:induction false} MoreElementsSound(s: string, i: nat, items: seq<Value>) returns (more: MoreElements)
    requires i <= |s| && MoreElementsAt(s, i, items).Ok?
    ensures GoodMoreElements(more) && LaidMoreElements(s, i, more)
    decreases |s| - i, 1
  {
    var blank := SkippedBlank(s, i);
    var j := SkipSpace(s, i);
    if s[j] == ']' {
      more := EndElements(blank);
    } else {
      var rest := ElementsSound(s, j + 1, items);
      more := CommaElements(blank, rest);
    }
  }

  /** What must be there if a member was read: a new key, a colon, and a readable rest. */
  lemma HeadRead(s: string, i: nat, fields: map<string, Value>)
    requires i <= |s| && MembersAt(s, i, fields).Ok? && s[SkipSpace(s, i)] != '}'
    ensures SkipSpace(s, i) < |s| && KeyAt(s, SkipSpace(s, i)).Ok?
    ensures KeyAt(s, SkipSpace(s, i)).value !in fields
    ensures var colon := SkipSpace(s, KeyAt(s, SkipSpace(s, i)).pos);
            colon < |s| && s[colon] == ':' && FieldAt(s, colon + 1, fields, KeyAt(s, SkipSpace(s, i)).value).Ok?
  {
  }

  lemma HeadAssembled(s: string, i: nat, blank: string, key: Key, beforeColon: string)
    requires Stands(s, i, blank) && Stands(s, i + |blank|, SpellKey(key))
    requires Stands(s, i + |blank| + |SpellKey(key)|, beforeColon)
    requires var colon := i + |blank| + |SpellKey(key)| + |beforeColon|; colon < |s| && s[colon] == ':'
    ensures LaidHead(s, i, blank, key, beforeColon)
  {
  }

  /** The key and colon of a member that was read. */
  lemma HeadSound(s: string, i: nat, j: nat, value: string, k: nat)
      returns (blank: string, key: Key, beforeColon: string)
    requires i <= |s| && j == SkipSpace(s, i) < |s| && KeyAt(s, j) == Ok(value, k)
    requires SkipSpace(s, k) < |s| && s[SkipSpace(s, k)] == ':'
    ensures Blank(blank) && GoodKey(key) && Blank(beforeColon) && LaidHead(s, i, blank, key, beforeColon)
    ensures KeyMeaning(key) == value && HeadEnd(i, blank, key, beforeColon) == SkipSpace(s, k) + 1
  {
    hide GoodKey, KeyMeaning, SpellKey, Blank, Stands, LaidHead, KeyAt;
    blank := SkippedBlank(s, i);
    SkippedTwice(s, i);
    key := KeySound(s, j);
    beforeColon := SkippedBlank(s, k);
    HeadAssembled(s, i, blank, key, beforeColon);
  }

  lemma SkippedTwice(s: string, i: nat)
    requires i <= |s|
    ensures SkipSpace(s, SkipSpace(s, i)) == SkipSpace(s, i)
  {
    var _ := SkippedBlank(s, i);
  }

  lemma {:induction false} MembersSound(s: string, i: nat, fields: map<string, Value>) returns (ms: Members)
    requires i <= |s| && MembersAt(s, i, fields).Ok?
    ensures GoodMembers(ms, fields.Keys) && LaidMembers(s, i, ms)
    decreases |s| - i, 3
  {
    var j := SkipSpace(s, i);
    if s[j] == '}' {
      var blank := SkippedBlank(s, i);
      ms := NoMembers(blank);
      StandsChar(s, j, '}');
    } else {
      HeadRead(s, i, fields);
      ms := MemberSound(s, i, fields, KeyAt(s, j).value, KeyAt(s, j).pos);
    }
  }

  lemma MemberAssembled(s: string, i: nat, blank: string, key: Key, beforeColon: string, v: Syntax, more: MoreMembers)
    requires LaidHead(s, i, blank, key, beforeColon) && Laid(s, HeadEnd(i, blank, key, beforeColon), v)
    requires LaidMoreMembers(s, HeadEnd(i, blank, key, beforeColon) + |Spell(v)|, more)
    ensures LaidMembers(s, i, Member(blank, key, beforeColon, v, more))
  {
  }

  lemma GoodAssembled(used: set<string>, blank: string, key: Key, beforeColon: string, v: Syntax, more: MoreMembers)
    requires Blank(blank) && GoodKey(key) && Blank(beforeColon) && Good(v) && KeyMeaning(key) !in used
    requires GoodMoreMembers(more, used + {KeyMeaning(key)})
    ensures GoodMembers(Member(blank, key, beforeColon, v, more), used)
  {
  }

  lemma {:induction false} MemberSound(s: string, i: nat, fields: map<string, Value>, name: string, k: nat)
      returns (ms: Members)
    requires i <= |s| && SkipSpace(s, i) < |s| && KeyAt(s, SkipSpace(s, i)) == Ok(name, k) && name !in fields
    requires SkipSpace(s, k) < |s| && s[SkipSpace(s, k)] == ':' && FieldAt(s, SkipSpace(s, k) + 1, fields, name).Ok?
    ensures GoodMembers(ms, fields.Keys) && LaidMembers(s, i, ms)
    decreases |s| - i, 2
  {
    hide *;
    var blank, key, beforeColon := HeadSound(s, i, SkipSpace(s, i), name, k);
    var v, more := FieldSound(s, SkipSpace(s, k) + 1, fields, name);
    ms := Member(blank, key, beforeColon, v, more);
    MemberAssembled(s, i, blank, key, beforeColon, v, more);
    GoodAssembled(fields.Keys, blank, key, beforeColon, v, more);
  }

  lemma {:induction false} FieldSound(s: string, i: nat, fields: map<string, Value>, key: string)
    returns (v: Syntax, more: MoreMembers)
    requires i <= |s| && FieldAt(s, i, fields, key).Ok?
    ensures Good(v) && Laid(s, i, v)
    ensures GoodMoreMembers(more, fields.Keys + {key}) && LaidMoreMembers(s, i + |Spell(v)|, more)
    decreases |s| - i, 2
  {
    hide *;
    FieldRead(s, i, fields, key);
    v := ValueSound(s, i);
    ValueWidth(s, i, v);
    more := MoreMembersSound(s, i + |Spell(v)|, fields[key := ValueAt(s, i).value]);
    KeysWith(fields, key, ValueAt(s, i).value);
  }

  /** The parser consumes exactly the spelling. */
  lemma ValueWidth(s: string, i: nat, v: Syntax)
    requires Good(v) && Laid(s, i, v)
    ensures i < i + |Spell(v)| <= |s| && ValueAt(s, i).Ok? && ValueAt(s, i).pos == i + |Spell(v)|
  {
    LaidComplete(s, i, v);
  }

  lemma FieldRead(s: string, i: nat, fields: map<string, Value>, key: string)
    requires i <= |s| && FieldAt(s, i, fields, key).Ok?
    ensures ValueAt(s, i).Ok? && MoreMembersAt(s, ValueAt(s, i).pos, fields[key := ValueAt(s, i).value]).Ok?
  {
  }

  lemma KeysWith(fields: map<string, Value>, key: string, value: Value)
    ensures fields[key := value].Keys == fields.Keys + {key}
  {
  }

  lemma {:induction false} MoreMembersSound(s: string, i: nat, fields: map<string, Value>) returns (more: MoreMembers)
    requires i <= |s| && MoreMembersAt(s, i, fields).Ok?
    ensures GoodMoreMembers(more, fields.Keys) && LaidMoreMembers(s, i, more)
    decreases |s| - i, 1
  {
    var blank := SkippedBlank(s, i);
    var j := SkipSpace(s, i);
    if s[j] == '}' {
      more := EndMembers(blank);
    } else {
      var rest := MembersSound(s, j + 1, fields);
      more := CommaMembers(blank, rest);
    }
  }

  /** Soundness: whatever the parser accepts is the spelling of a well-formed tree, and
      the value it returns is the tree's meaning. */
  lemma Sound(s: string, i: nat) returns (x: Syntax)
    requires i <= |s| && ValueAt(s, i).Ok?
    ensures Good(x) && Spell(x) == s[i..ValueAt(s, i).pos] && Meaning(x) == ValueAt(s, i).value
  {
    x := ValueSound(s, i);
    LaidComplete(s, i, x);
    LaidIsSpelled(s, i, x);
    StandsIsSlice(s, i, Spell(x));
  }

  // ---------------------------------------------------------------- consequences

  /** Locality: a parse depends only on the characters it consumed.  Wherever they stand,
      they parse to the same value, and nothing more is consumed. */
  lemma Local(s: string, i: nat, t: string, k: nat)
    requires i <= |s| && ValueAt(s, i).Ok?
    requires Stands(t, k, s[i..ValueAt(s, i).pos])
    ensures ValueAt(t, k) == Ok(ValueAt(s, i).value, k + (ValueAt(s, i).pos - i))
  {
    var x := Sound(s, i);
    Complete(t, k, x);
  }

  /** A whole text that must hold one value and blanks. */
  datatype Whole = Accepted(value: Value) | Rejected

  function ParseWhole(s: string): Whole {
    var p := ValueAt(s, 0);
    if p.Ok? && SkipSpace(s, p.pos) == |s| then Accepted(p.value) else Rejected
  }

  lemma AcceptedHasSpelling(s: string) returns (x: Syntax, blank: string)
    requires ParseWhole(s).Accepted?
    ensures Good(x) && Blank(blank) && s == Spell(x) + blank && Meaning(x) == ParseWhole(s).value
  {
    hide Good, Spell, Meaning, ValueAt, SkipSpace, Blank, Stands;
    var end := ValueAt(s, 0).pos;
    x := Sound(s, 0);
    blank := SkippedBlank(s, end);
    StandsIsSlice(s, end, blank);
    SplitAt(s, end);
  }

  lemma WholeStep(s: string, value: Value, pos: nat)
    requires ValueAt(s, 0) == Ok(value, pos) && SkipSpace(s, pos) == |s|
    ensures ParseWhole(s) == Accepted(value)
  {
  }

  lemma SplitAt(s: string, end: nat)
    requires end <= |s|
    ensures s == s[0..end] + s[end..|s|]
  {
  }

  lemma SpellingIsAccepted(s: string, x: Syntax, blank: string)
    requires Good(x) && Blank(blank) && s == Spell(x) + blank
    ensures ParseWhole(s) == Accepted(Meaning(x))
  {
    hide Good, Spell, Meaning, ValueAt, ParseWhole, SkipSpace;
    StandsConcatenated(Spell(x), blank);
    Complete(s, 0, x);
    SkipBlank(s, |Spell(x)|, blank);
    WholeStep(s, Meaning(x), |Spell(x)|);
  }

  lemma StandsConcatenated(t: string, u: string)
    ensures Stands(t + u, 0, t) && Stands(t + u, |t|, u)
  {
    StandsBoth(t + u, 0, t, u);
  }

  /** The text is a well-formed tree written out, and then blanks. */
  ghost predicate IsSpelling(s: string, x: Syntax, blank: string) {
    Good(x) && Blank(blank) && s == Spell(x) + blank
  }

  /** A whole text is accepted exactly when it is a spelling followed by blanks, and then
      with that spelling's meaning. */
  lemma AcceptedIsSpelled(s: string, v: Value)
    ensures ParseWhole(s) == Accepted(v) <==> exists x, blank :: IsSpelling(s, x, blank) && Meaning(x) == v
  {
    if ParseWhole(s) == Accepted(v) {
      var x, blank := AcceptedHasSpelling(s);
      assert IsSpelling(s, x, blank);
    } else if x, blank :| IsSpelling(s, x, blank) && Meaning(x) == v {
      SpellingIsAccepted(s, x, blank);
    }
  }

  /** The surrogate pair of a supplementary code point (section 2.2 of RFC 2781). */
  function HighOf(r: nat): nat
    requires 0x10000 <= r < 0x110000
  {
    0xD800 + (r - 0x10000) / 0x400
  }

  function LowOf(r: nat): nat
    requires 0x10000 <= r < 0x110000
  {
    0xDC00 + (r - 0x10000) % 0x400
  }

  lemma PairOf(high: nat, low: nat, r: nat)
    requires 0x10000 <= r < 0x110000
    ensures IsHighSurrogate(high) && IsLowSurrogate(low) && JoinSurrogates(high, low) == r
      <==> high == HighOf(r) && low == LowOf(r)
  {
  }

  /** The text at `i`, behind a first backslash and `u`, spells the pair of the code point. */
  predicate PairStands(s: string, i: nat, r: nat)
    requires 0x10000 <= r < 0x110000
  {
    && i + 10 <= |s|
    && IsHex4(s[i..i + 4]) && Hex4(s[i..i + 4]) == HighOf(r)
    && s[i + 4..i + 6] == "\\u"
    && IsHex4(s[i + 6..i + 10]) && Hex4(s[i + 6..i + 10]) == LowOf(r)
  }

  /** Behind a backslash and a `u`, the parser reads a supplementary code point exactly if its
      surrogate pair is written there, in whatever case. */
  lemma SurrogatesJoin(s: string, i: nat, r: nat)
    requires i <= |s| && 0x10000 <= r < 0x110000
    ensures UnicodeEscapeAt(s, i).Ok? && UnicodeEscapeAt(s, i).value == r <==> PairStands(s, i, r)
    ensures PairStands(s, i, r) ==> UnicodeEscapeAt(s, i) == Ok(r, i + 10)
  {
    hide HighOf, LowOf, Hex4, IsHex4, JoinSurrogates;
    if i + 10 <= |s| && IsHex4(s[i..i + 4]) && IsHex4(s[i + 6..i + 10]) {
      PairOf(Hex4(s[i..i + 4]), Hex4(s[i + 6..i + 10]), r);
      HighIsSurrogate(r);
    }
  }

  lemma HighIsSurrogate(r: nat)
    requires 0x10000 <= r < 0x110000
    ensures IsSurrogate(HighOf(r))
  {
  }
}
