/**
 The characters of plan literals, pinned to the standards they come from: the escapes of
 section 7 of RFC 8259, the digits of section 2.2 of RFC 2781 and the UTF-8 encoding of
 section 3 of RFC 3629, and the character classes of the source.
 */
module PlanCharacters {
  import opened Common
  import opened PlanLiteral
  import opened PlanGrammar
  import opened PlanCorrectness

  const ESCAPES := "\"\\/bfnrt'"
  const ESCAPED := [34, 92, 47, 8, 12, 10, 13, 9, 39]

  /** Behind a backslash, each of the short escapes stands for its own character, and no other
      character but `u` may stand there. */
  lemma EscapeTable(s: string, i: nat)
    requires i <= |s|
    ensures forall k | 0 <= k < |ESCAPES| && i < |s| && s[i] == ESCAPES[k] ::
      EscapeAt(s, i) == Ok([ESCAPED[k] as char], i + 1)
    ensures i < |s| && s[i] != 'u' && s[i] !in ESCAPES ==> EscapeAt(s, i) == Err(UnsupportedEscape)
    ensures i == |s| ==> EscapeAt(s, i) == Err(UnterminatedEscape)
  {
    if i < |s| {
      SimpleTable(s[i]);
    }
  }

  lemma SimpleTable(c: char)
    ensures IsSimpleEscape(c) <==> c in ESCAPES
    ensures forall k | 0 <= k < |ESCAPES| && c == ESCAPES[k] ::
      IsSimpleEscape(c) && SimpleEscape(c) == ESCAPED[k] as char
  {
    assert ESCAPES == ['"', '\\', '/', 'b', 'f', 'n', 'r', 't', '\''];
  }

  /** Behind a backslash and a `u`, four digits stand for the code unit they write. */
  lemma CodeUnitReads(s: string, i: nat)
    requires i < |s| && s[i] == 'u' && i + 5 <= |s| && IsHex4(s[i + 1..i + 5]) && !IsSurrogate(Hex4(s[i + 1..i + 5]))
    ensures EscapeAt(s, i) == Ok(Utf8(Hex4(s[i + 1..i + 5])), i + 5)
  {
    hide Hex4, IsHex4, Utf8;
  }

  /** The value of a digit, in either case. */
  lemma DigitTable(c: char, n: nat)
    ensures IsHexDigit(c) && HexDigit(c) == n <==> n < 16 && (c == "0123456789abcdef"[n] || c == "0123456789ABCDEF"[n])
  {
    if '0' <= c <= '9' && n < 16 {
      assert "0123456789abcdef"[n] == c <==> c as int - '0' as int == n;
      assert "0123456789ABCDEF"[n] == c <==> c as int - '0' as int == n;
    }
  }

  /** Four digits write a number, the first one the most significant. */
  lemma Hex4Writes(h: string)
    requires IsHex4(h)
    ensures Hex4(h) == 0x1000 * HexDigit(h[0]) + 0x100 * HexDigit(h[1]) + 0x10 * HexDigit(h[2]) + HexDigit(h[3])
  {
  }

  const BLANKS := " \n\r\t"
  const LETTERS := "abcdefghijklmnopqrstuvwxyzABCDEFGHIJKLMNOPQRSTUVWXYZ"

  /** The blanks, the quotes and the characters of a bare key. */
  lemma ClassTable(c: char)
    ensures IsSpace(c) <==> c in BLANKS
    ensures IsQuote(c) <==> c == '"' || c == '\''
    ensures IsIdentifier(c) ==> c == '_' || c == '$' || ('0' <= c <= '9') || ('a' <= c <= 'z') || ('A' <= c <= 'Z')
    ensures c == '_' || c == '$' || ('0' <= c <= '9') || ('a' <= c <= 'z') || ('A' <= c <= 'Z') ==> IsIdentifier(c)
  {
    assert BLANKS == [' ', '\n', '\r', '\t'];
  }

  // ---------------------------------------------------------------- UTF-8

  /** The six payload bits of a continuation byte. */
  function Continuation(c: char): Option<nat> {
    if 0x80 <= c as nat < 0xC0 then Some(c as nat - 0x80) else None
  }

  /** The code point that a sequence of bytes encodes, read as the standard says: the first byte
      tells the length, the others carry six bits each. */
  function Decode(bytes: string): Option<nat> {
    if |bytes| == 1 && bytes[0] as nat < 0x80 then Some(bytes[0] as nat)
    else if |bytes| == 2 && 0xC0 <= bytes[0] as nat < 0xE0 && Continuation(bytes[1]).Some? then
      Some((bytes[0] as nat - 0xC0) * 0x40 + Continuation(bytes[1]).value)
    else if |bytes| == 3 && 0xE0 <= bytes[0] as nat < 0xF0
            && Continuation(bytes[1]).Some? && Continuation(bytes[2]).Some? then
      Some((bytes[0] as nat - 0xE0) * 0x1000 + Continuation(bytes[1]).value * 0x40 + Continuation(bytes[2]).value)
    else if |bytes| == 4 && 0xF0 <= bytes[0] as nat < 0xF8
            && Continuation(bytes[1]).Some? && Continuation(bytes[2]).Some? && Continuation(bytes[3]).Some? then
      Some((bytes[0] as nat - 0xF0) * 0x40000 + Continuation(bytes[1]).value * 0x1000
           + Continuation(bytes[2]).value * 0x40 + Continuation(bytes[3]).value)
    else None
  }

  lemma SplitTwo(r: nat)
    requires r < 0x800
    ensures r / 0x40 < 0x20 && r == r / 0x40 * 0x40 + r % 0x40
  {
  }

  lemma SplitThree(r: nat)
    requires r < 0x10000
    ensures r / 0x1000 < 0x10 && r == r / 0x1000 * 0x1000 + r / 0x40 % 0x40 * 0x40 + r % 0x40
  {
    assert r / 0x40 / 0x40 == r / 0x1000;
  }

  lemma SplitFour(r: nat)
    requires r < 0x110000
    ensures r / 0x40000 < 8
    ensures r == r / 0x40000 * 0x40000 + r / 0x1000 % 0x40 * 0x1000 + r / 0x40 % 0x40 * 0x40 + r % 0x40
  {
    assert r / 0x40 / 0x40 == r / 0x1000;
    assert r / 0x1000 / 0x40 == r / 0x40000;
  }

  lemma ContinuationReads(n: nat)
    requires n < 0x40
    ensures Continuation((0x80 + n) as char) == Some(n)
  {
  }

  lemma ShortDecodes(r: nat)
    requires r < 0x800
    ensures Decode(Utf8(r)) == Some(r)
  {
    hide Continuation;
    SplitTwo(r);
    ContinuationReads(r % 0x40);
  }

  lemma ThreeDecode(r: nat)
    requires 0x800 <= r < 0x10000
    ensures Decode(Utf8(r)) == Some(r)
  {
    hide Continuation;
    SplitThree(r);
    ContinuationReads(r / 0x40 % 0x40);
    ContinuationReads(r % 0x40);
  }

  lemma FourDecode(r: nat)
    requires 0x10000 <= r < 0x110000
    ensures Decode(Utf8(r)) == Some(r)
  {
    hide Continuation;
    SplitFour(r);
    ContinuationReads(r / 0x1000 % 0x40);
    ContinuationReads(r / 0x40 % 0x40);
    ContinuationReads(r % 0x40);
  }

  /** The bytes of a code point decode to it, and there are as few as the standard demands. */
  lemma Utf8Decodes(r: nat)
    requires r < 0x110000
    ensures Decode(Utf8(r)) == Some(r)
    ensures |Utf8(r)| == if r < 0x80 then 1 else if r < 0x800 then 2 else if r < 0x10000 then 3 else 4
  {
    hide Decode;
    if r < 0x800 {
      ShortDecodes(r);
    } else if r < 0x10000 {
      ThreeDecode(r);
    } else {
      FourDecode(r);
    }
  }
}
