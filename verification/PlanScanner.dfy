/**
 Finding the `tools.update_plan` call in the JavaScript around it.

 The scanner jumps over strings, comments and matches.  `ModeAt` is the reference: a
 lexer that reads one character at a time and knows whether each position is code, a
 string or a comment.  `FindCalls` reports exactly the word-bounded occurrences of the
 target at code positions, also when a string or comment never ends.
 */
module PlanScanner {
  import opened PlanLiteral

  const TARGET: string := "tools.update_plan"

  predicate IsStringQuote(c: char) {
    c == '\'' || c == '"' || c == '`'
  }

  // ---------------------------------------------------------------- the reference lexer

  /** What the character at a position belongs to.  The opening and closing modes stand on
      the second character of a two-character mark. */
  datatype Mode =
    | Code
    | Quoted(quote: char)
    | Escaped(quote: char)
    | LineOpening
    | Line
    | BlockOpening
    | Block
    | BlockClosing

  /** The mode behind a character, given the mode it is read in and what follows it. */
  function NextMode(mode: Mode, s: string, i: nat): Mode
    requires i < |s|
  {
    var c := s[i];
    match mode
    case Code =>
      if IsStringQuote(c) then Quoted(c)
      else if c == '/' && i + 1 < |s| && s[i + 1] == '/' then LineOpening
      else if c == '/' && i + 1 < |s| && s[i + 1] == '*' then BlockOpening
      else Code
    case Quoted(q) => if c == '\\' then Escaped(q) else if c == q then Code else mode
    case Escaped(q) => Quoted(q)
    case LineOpening => Line
    case Line => if c == '\n' then Code else Line
    case BlockOpening => Block
    case Block => if c == '*' && i + 1 < |s| && s[i + 1] == '/' then BlockClosing else Block
    case BlockClosing => Code
  }

  function ModeAt(s: string, i: nat): Mode
    requires i <= |s|
  {
    if i == 0 then Code else NextMode(ModeAt(s, i - 1), s, i - 1)
  }

  /** The target stands here as a word of its own. */
  predicate IsWordAt(s: string, i: nat)
    requires i < |s|
  {
    && i + |TARGET| <= |s| && s[i..i + |TARGET|] == TARGET
    && (i == 0 || !IsIdentifier(s[i - 1]))
    && (i + |TARGET| == |s| || !IsIdentifier(s[i + |TARGET|]))
  }

  /** A character that may stand in an identifier. */
  predicate Joins(c: char) {
    c in "_$" || c in "abcdefghijklmnopqrstuvwxyz" || c in "ABCDEFGHIJKLMNOPQRSTUVWXYZ" || c in "0123456789"
  }

  lemma JoinsMeans(c: char)
    ensures IsIdentifier(c) <==> Joins(c)
  {
    LetterIn(c, "abcdefghijklmnopqrstuvwxyz", 'a');
    LetterIn(c, "ABCDEFGHIJKLMNOPQRSTUVWXYZ", 'A');
    LetterIn(c, "0123456789", '0');
  }

  /** A text of consecutive characters holds those of its range. */
  lemma LetterIn(c: char, letters: string, first: char)
    requires letters != "" && first as int + |letters| < 0xD800
    requires forall k | 0 <= k < |letters| :: letters[k] as int == first as int + k
    ensures c in letters <==> first as int <= c as int < first as int + |letters|
  {
    if first as int <= c as int < first as int + |letters| {
      assert letters[c as int - first as int] == c;
    }
  }

  /** The target is those seventeen characters, with no identifier character on either side. */
  lemma WordMeans(s: string, i: nat)
    requires i < |s|
    ensures IsWordAt(s, i) <==>
      && i + 17 <= |s| && s[i..i + 17] == "tools.update_plan"
      && (i > 0 ==> !Joins(s[i - 1])) && (i + 17 < |s| ==> !Joins(s[i + 17]))
  {
    hide IsIdentifier, Joins;
    if i > 0 {
      JoinsMeans(s[i - 1]);
    }
    if i + 17 < |s| {
      JoinsMeans(s[i + 17]);
    }
  }

  predicate IsCallAt(s: string, i: nat)
    requires i < |s|
  {
    ModeAt(s, i).Code? && IsWordAt(s, i)
  }

  /** The calls that start before position `n`, in order. */
  function CallsBefore(s: string, n: nat): seq<nat>
    requires n <= |s|
  {
    if n == 0 then [] else CallsBefore(s, n - 1) + (if IsCallAt(s, n - 1) then [n - 1] else [])
  }

  // ---------------------------------------------------------------- what may be jumped over

  lemma {:induction false} NoCallsBetween(s: string, a: nat, b: nat)
    requires a <= b <= |s| && forall k | a <= k < b :: !IsCallAt(s, k)
    ensures CallsBefore(s, b) == CallsBefore(s, a)
    decreases b
  {
    if a < b {
      NoCallsBetween(s, a, b - 1);
    }
  }

  lemma WordStart(s: string, i: nat)
    requires i < |s| && IsWordAt(s, i)
    ensures i + |TARGET| <= |s| && s[i] == 't' && s[i + 1] == 'o'
  {
    assert s[i] == s[i..i + |TARGET|][0] && s[i + 1] == s[i..i + |TARGET|][1];
  }

  /** A call starts with the target's first letter. */
  lemma CallStart(s: string, i: nat)
    requires i < |s| && s[i] != 't'
    ensures !IsCallAt(s, i)
  {
    if IsWordAt(s, i) {
      WordStart(s, i);
    }
  }

  /** Inside a match everything is code and no other match can start. */
  lemma {:induction false} InsideMatch(s: string, i: nat, k: nat)
    requires i < |s| && IsCallAt(s, i) && 0 < k <= |TARGET|
    ensures ModeAt(s, i + k).Code?
    ensures k < |TARGET| ==> !IsCallAt(s, i + k)
    decreases k
  {
    var word := s[i..i + |TARGET|];
    if k > 1 {
      InsideMatch(s, i, k - 1);
    }
    assert s[i + k - 1] == word[k - 1] == TARGET[k - 1];
    if k < |TARGET| {
      assert s[i + k] == word[k] == TARGET[k];
      if k == 10 {
        assert s[i + 11] == word[11];
        if IsWordAt(s, i + 10) {
          WordStart(s, i + 10);
        }
      } else {
        assert TARGET[k] != 't';
        CallStart(s, i + k);
      }
    }
  }

  lemma MatchSkipped(s: string, i: nat)
    requires i < |s| && IsCallAt(s, i)
    ensures i + |TARGET| <= |s| && ModeAt(s, i + |TARGET|).Code?
    ensures CallsBefore(s, i + |TARGET|) == CallsBefore(s, i) + [i]
  {
    forall k | i + 1 <= k < i + |TARGET| ensures !IsCallAt(s, k) {
      InsideMatch(s, i, k - i);
    }
    InsideMatch(s, i, |TARGET|);
    NoCallsBetween(s, i + 1, i + |TARGET|);
  }

  // ---------------------------------------------------------------- the scanner

  /** Where the scanner stands: at a code position, or where nothing can match any more. */
  ghost predicate Aligned(s: string, i: nat) {
    i <= |s| && (ModeAt(s, i).Code? || i + 1 >= |s|)
  }

  /** Skip a quoted string; an unterminated one reaches the end of the text. */
  method SkipQuoted(s: string, start: nat) returns (end: nat)
    requires start < |s| && IsStringQuote(s[start])
    requires ModeAt(s, start).Code? || start + 1 == |s|
    ensures start < end && Aligned(s, end)
    ensures CallsBefore(s, end) == CallsBefore(s, start)
  {
    var quote := s[start];
    var i := start + 1;
    CallStart(s, start);
    ghost var inside := ModeAt(s, start).Code?;
    while i < |s|
      invariant start < i <= |s| + 1
      invariant i <= |s| ==> CallsBefore(s, i) == CallsBefore(s, start)
      invariant i == |s| + 1 ==> CallsBefore(s, |s|) == CallsBefore(s, start)
      invariant i < |s| ==> ModeAt(s, i) == Quoted(quote)
    {
      assert ModeAt(s, i + 1) == NextMode(ModeAt(s, i), s, i);
      if s[i] == '\\' {
        if i + 1 < |s| {
          assert ModeAt(s, i + 2) == NextMode(ModeAt(s, i + 1), s, i + 1);
        }
        i := i + 2;
      } else if s[i] == quote {
        return i + 1;
      } else {
        i := i + 1;
      }
    }
    return |s|;
  }

  /** Skip a line comment, up to its newline. */
  method SkipLine(s: string, start: nat) returns (end: nat)
    requires start + 1 < |s| && s[start] == s[start + 1] == '/' && ModeAt(s, start).Code?
    ensures start < end <= |s| && (end < |s| ==> s[end] == '\n' && ModeAt(s, end).Line?)
    ensures CallsBefore(s, end) == CallsBefore(s, start)
  {
    end := start + 2;
    CallStart(s, start);
    CallStart(s, start + 1);
    assert ModeAt(s, start + 1) == LineOpening;
    while end < |s| && s[end] != '\n'
      invariant start + 2 <= end <= |s| && ModeAt(s, end).Line?
      invariant CallsBefore(s, end) == CallsBefore(s, start)
    {
      end := end + 1;
    }
  }

  /** Skip a block comment; of an unterminated one the last character is left over. */
  method SkipBlock(s: string, start: nat) returns (end: nat)
    requires start + 1 < |s| && s[start] == '/' && s[start + 1] == '*' && ModeAt(s, start).Code?
    ensures start < end && Aligned(s, end)
    ensures CallsBefore(s, end) == CallsBefore(s, start)
  {
    end := start + 2;
    CallStart(s, start);
    CallStart(s, start + 1);
    assert ModeAt(s, start + 1) == BlockOpening;
    while end + 1 < |s| && !(s[end] == '*' && s[end + 1] == '/')
      invariant start + 2 <= end <= |s| && ModeAt(s, end).Block?
      invariant CallsBefore(s, end) == CallsBefore(s, start)
    {
      end := end + 1;
    }
    if end + 1 < |s| {
      assert ModeAt(s, end + 1) == BlockClosing;
      CallStart(s, end);
      CallStart(s, end + 1);
      end := end + 2;
    }
  }

  /** The scanner finds exactly the calls the reference lexer sees. */
  method FindCalls(s: string) returns (positions: seq<nat>)
    ensures positions == CallsBefore(s, |s|)
  {
    positions := [];
    var i := 0;
    while i < |s|
      invariant Aligned(s, i) || (i < |s| && s[i] == '\n' && ModeAt(s, i).Line?)
      invariant i <= |s| && positions == CallsBefore(s, i)
    {
      if IsStringQuote(s[i]) {
        i := SkipQuoted(s, i);
      } else if s[i] == '/' && i + 1 < |s| && s[i + 1] == '/' {
        i := SkipLine(s, i);
      } else if s[i] == '/' && i + 1 < |s| && s[i + 1] == '*' {
        i := SkipBlock(s, i);
      } else if i + |TARGET| <= |s| && s[i..i + |TARGET|] == TARGET && (i == 0 || !IsIdentifier(s[i - 1]))
        && (i + |TARGET| == |s| || !IsIdentifier(s[i + |TARGET|])) {
        WordStart(s, i);
        MatchSkipped(s, i);
        positions := positions + [i];
        i := i + |TARGET|;
      } else {
        assert ModeAt(s, i + 1) == NextMode(ModeAt(s, i), s, i);
        i := i + 1;
      }
    }
  }
}
