/**
 Reservation of OpenCode message ids.

 An id is `msg_`, twelve hexadecimal digits and fourteen base-62 characters.  The digits
 are six big-endian bytes holding 36 bits of the millisecond clock and a 12-bit counter.
 OpenCode orders messages by comparing ids as strings, so a reserved id has to be greater
 than every id in the session's history and than every id reserved before.
 */
module MessageIds {
  import opened Common

  type Byte = b: int | 0 <= b < 256

  /** The clock's 36 encoded bits: times that differ by a multiple of this look the same. */
  const EPOCH := 0x10_0000_0000
  const COUNTERS := 0x1000
  const MAX_LEAD := 5000
  const PREFIX := "msg_"
  const BASE62 := "0123456789ABCDEFGHIJKLMNOPQRSTUVWXYZabcdefghijklmnopqrstuvwxyz"

  // ---------------------------------------------------------------- hexadecimal and bytes

  function HexDigit(c: char): (digit: Option<nat>)
    ensures digit.Some? ==> digit.value < 16
  {
    if '0' <= c <= '9' then Some(c as int - '0' as int)
    else if 'a' <= c <= 'f' then Some(c as int - 'a' as int + 10)
    else if 'A' <= c <= 'F' then Some(c as int - 'A' as int + 10)
    else None
  }

  function LowerDigit(n: nat): char
    requires n < 16
  {
    if n < 10 then '0' + n as char else 'a' + (n - 10) as char
  }

  predicate IsLowerDigit(c: char) {
    '0' <= c <= '9' || 'a' <= c <= 'f'
  }

  lemma DigitRoundTrip(n: nat)
    requires n < 16
    ensures HexDigit(LowerDigit(n)) == Some(n) && IsLowerDigit(LowerDigit(n))
  {
  }

  function HexEncode(bytes: seq<Byte>): string {
    if bytes == [] then ""
    else
      var b := bytes[|bytes| - 1];
      HexEncode(bytes[..|bytes| - 1]) + [LowerDigit(b / 16), LowerDigit(b % 16)]
  }

  /** Both cases of the letters are accepted; an odd digit out is an error. */
  function HexDecode(s: string): Option<seq<Byte>> {
    if s == "" then Some([])
    else if |s| == 1 then None
    else
      var n := |s| - 2;
      match (HexDecode(s[..n]), HexDigit(s[n]), HexDigit(s[n + 1]))
      case (Some(bytes), Some(high), Some(low)) => Some(bytes + [(16 * high + low) % 256])
      case _ => None
  }

  /** The last `width` bytes of a number, the most significant first. */
  function BigEndian(n: nat, width: nat): (bytes: seq<Byte>)
    ensures |bytes| == width
  {
    if width == 0 then [] else BigEndian(n / 256, width - 1) + [n % 256]
  }

  function FromBigEndian(bytes: seq<Byte>): nat {
    if bytes == [] then 0 else 256 * FromBigEndian(bytes[..|bytes| - 1]) + bytes[|bytes| - 1]
  }

  // ---------------------------------------------------------------- ids

  /** The milliseconds an id encodes. */
  function Millis(id: string): Option<nat> {
    if !(PREFIX <= id) || |id| != 30 then None
    else
      match HexDecode(id[4..16])
      case Some(raw) => if |raw| != 6 then None else Some(FromBigEndian([0, 0] + raw) / COUNTERS)
      case None => None
  }

  function Suffix(random: seq<Byte>): (suffix: string)
    ensures |suffix| == |random|
  {
    seq(|random|, i requires 0 <= i < |random| => BASE62[random[i] % 62])
  }

  /** The id of a millisecond, with the counter at one. */
  function MakeId(milli: int, random: seq<Byte>): string {
    PREFIX + HexEncode(BigEndian(milli % EPOCH * COUNTERS + 1, 8)[2..]) + Suffix(random)
  }

  /** How OpenCode orders ids: by their first different character. */
  ghost predicate Before(a: string, b: string) {
    exists k: nat :: FirstDifference(a, b, k)
  }

  ghost predicate FirstDifference(a: string, b: string, k: nat) {
    && k <= |a| && k < |b|
    && (forall i | 0 <= i < k :: a[i] == b[i])
    && (k == |a| || a[k] < b[k])
  }

  // ---------------------------------------------------------------- reservation

  /** A message of the session's history; `created` is zero when unknown. */
  datatype Message = Message(id: string, created: int)

  datatype Fault =
    | Unsupported(id: string)
    | EpochWrap
    | TooFarAhead
    | Cancelled
    | NoEntropy

  datatype Scan = Latest(milli: nat) | Faulty(fault: Fault)

  /** One attempt: the history, two readings of the clock, whether the caller gives up
      during the wait, how late the timer fires, and the random source's answer. */
  datatype Attempt = Attempt(
    history: seq<Message>,
    now: int,
    later: int,
    cancelled: bool,
    overslept: nat,
    entropy: Option<seq<Byte>>)
  {
    predicate Valid() {
      entropy.Some? ==> |entropy.value| == 14
    }
  }

  datatype Outcome =
    | Reserved(id: string, at: int, clock: int)
    | Failed(fault: Fault)

  /** What is wrong with one message of the history. */
  function FaultOf(message: Message, now: int): Option<Fault> {
    if message.id == "" then None
    else
      match Millis(message.id)
      case None => Some(Unsupported(message.id))
      case Some(milli) =>
        if message.created > 0 && message.created / EPOCH < now / EPOCH && milli > now % EPOCH
        then Some(EpochWrap) else None
  }

  function ScanHistory(history: seq<Message>, now: int): Scan {
    if history == [] then Latest(0)
    else
      var message := history[|history| - 1];
      match ScanHistory(history[..|history| - 1], now)
      case Faulty(fault) => Faulty(fault)
      case Latest(milli) =>
        match FaultOf(message, now)
        case Some(fault) => Faulty(fault)
        case None => Latest(Later(milli, message))
  }

  function Later(milli: nat, message: Message): nat {
    if Millis(message.id).Some? && Millis(message.id).value > milli then Millis(message.id).value else milli
  }

  function Target(latest: nat, last: int, now: int): int {
    var afterHistory := if latest >= now % EPOCH then now + latest - now % EPOCH + 1 else now;
    if last >= afterHistory then last + 1 else afterHistory
  }

  function Pause(target: int, later: int): int {
    target - later + 1
  }

  /** One call, given the last reserved millisecond: the new one and the outcome. */
  function Reserve(last: int, a: Attempt): (int, Outcome) {
    match ScanHistory(a.history, a.now)
    case Faulty(fault) => (last, Failed(fault))
    case Latest(latest) =>
      var target := Target(latest, last, a.now);
      var pause := Pause(target, a.later);
      if target - a.now > MAX_LEAD then (last, Failed(TooFarAhead))
      else if pause > 0 && a.cancelled then (last, Failed(Cancelled))
      else if a.entropy.None? then (last, Failed(NoEntropy))
      else
        (target, Reserved(MakeId(target, a.entropy.value), target,
          a.later + (if pause > 0 then pause + a.overslept else 0)))
  }

  // ---------------------------------------------------------------- the encoding

  lemma DecodeOneMore(s: string, bytes: seq<Byte>, high: char, low: char, byte: Byte)
    requires HexDecode(s) == Some(bytes) && HexDigit(high) == Some(byte / 16) && HexDigit(low) == Some(byte % 16)
    ensures HexDecode(s + [high, low]) == Some(bytes + [byte])
  {
    hide HexDigit;
    assert (s + [high, low])[..|s|] == s;
  }

  lemma {:induction false} HexRoundTrip(bytes: seq<Byte>)
    ensures |HexEncode(bytes)| == 2 * |bytes|
    ensures HexDecode(HexEncode(bytes)) == Some(bytes)
  {
    hide HexDigit, LowerDigit;
    if bytes != [] {
      var n := |bytes| - 1;
      HexRoundTrip(bytes[..n]);
      DigitRoundTrip(bytes[n] / 16);
      DigitRoundTrip(bytes[n] % 16);
      DecodeOneMore(HexEncode(bytes[..n]), bytes[..n], LowerDigit(bytes[n] / 16), LowerDigit(bytes[n] % 16), bytes[n]);
      assert bytes[..n] + [bytes[n]] == bytes;
    }
  }

  function Power256(k: nat): nat {
    if k == 0 then 1 else 256 * Power256(k - 1)
  }

  lemma {:induction false} BigEndianRoundTrip(n: nat, width: nat)
    requires n < Power256(width)
    ensures FromBigEndian(BigEndian(n, width)) == n
  {
    if width > 0 {
      BigEndianRoundTrip(n / 256, width - 1);
      var bytes := BigEndian(n, width);
      assert bytes[..|bytes| - 1] == BigEndian(n / 256, width - 1);
    }
  }

  /** The dropped leading bytes of a small number are zero. */
  lemma {:induction false} LeadingZeros(n: nat, width: nat)
    requires n < Power256(width)
    ensures BigEndian(n, width + 2) == [0, 0] + BigEndian(n, width)
  {
    if width == 0 {
      assert BigEndian(0, 1) == BigEndian(0, 0) + [0];
      assert BigEndian(0, 2) == BigEndian(0, 1) + [0];
    } else {
      LeadingZeros(n / 256, width - 1);
    }
  }

  const CODES := EPOCH * COUNTERS

  lemma SixBytes()
    ensures Power256(6) == CODES
  {
    assert Power256(2) == 0x1_0000;
    assert Power256(4) == 0x1_0000_0000;
    assert Power256(6) == 0x1_0000_0000_0000;
  }

  /** An id of any code and any suffix decodes to the millisecond of its code. */
  lemma CodeDecodes(code: nat, rest: string)
    requires code < CODES && |rest| == 14
    ensures |PREFIX + HexEncode(BigEndian(code, 6)) + rest| == 30
    ensures (PREFIX + HexEncode(BigEndian(code, 6)) + rest)[4..16] == HexEncode(BigEndian(code, 6))
    ensures Millis(PREFIX + HexEncode(BigEndian(code, 6)) + rest) == Some(code / COUNTERS)
  {
    var raw := BigEndian(code, 6);
    var id := PREFIX + HexEncode(raw) + rest;
    HexRoundTrip(raw);
    assert id[4..16] == HexEncode(raw);
    SixBytes();
    BigEndianRoundTrip(code, 6);
    ZeroPadded(raw);
    assert PREFIX <= id;
  }

  /** A reserved id decodes to the millisecond it was made of. */
  lemma MakeIdDecodes(milli: int, random: seq<Byte>)
    requires |random| == 14
    ensures Millis(MakeId(milli, random)) == Some(milli % EPOCH)
    ensures |MakeId(milli, random)| == 30
    ensures MakeId(milli, random)[4..16] == HexEncode(BigEndian(milli % EPOCH * COUNTERS + 1, 6))
  {
    hide BigEndian, HexEncode, HexDecode, FromBigEndian, Millis, Power256, Suffix;
    var code := milli % EPOCH * COUNTERS + 1;
    SixBytes();
    LeadingZeros(code, 6);
    assert BigEndian(code, 8)[2..] == BigEndian(code, 6);
    CodeDecodes(code, Suffix(random));
  }

  // ---------------------------------------------------------------- the order

  predicate AllHex(s: string) {
    forall i | 0 <= i < |s| :: HexDigit(s[i]).Some?
  }

  predicate LowerHex(s: string) {
    forall i | 0 <= i < |s| :: IsLowerDigit(s[i])
  }

  function HexNumber(s: string): nat
    requires AllHex(s)
  {
    if s == "" then 0 else 16 * HexNumber(s[..|s| - 1]) + HexDigit(s[|s| - 1]).value
  }

  lemma BeforeExtends(a: string, b: string, a': string, b': string)
    requires |a| == |b| && Before(a, b)
    ensures Before(a + a', b + b')
  {
    var k: nat :| FirstDifference(a, b, k);
    assert k < |a|;
    assert FirstDifference(a + a', b + b', k);
  }

  lemma BeforeUnderPrefix(p: string, a: string, b: string)
    requires Before(a, b)
    ensures Before(p + a, p + b)
  {
    var k: nat :| FirstDifference(a, b, k);
    assert FirstDifference(p + a, p + b, |p| + k);
  }

  predicate IsDecimalDigit(c: char) {
    '0' <= c <= '9'
  }

  /** Whether two digits sort as their values do: if the greater one is in lower case, or the
      smaller one is no letter. */
  predicate Sortable(x: char, y: char) {
    HexDigit(x).Some? && HexDigit(y).Some? && (IsLowerDigit(y) || IsDecimalDigit(x))
  }

  lemma DigitOrder(x: char, y: char)
    requires Sortable(x, y)
    ensures HexDigit(x).value < HexDigit(y).value ==> x < y
    ensures HexDigit(x).value == HexDigit(y).value ==> x <= y
  {
  }

  /** Digit strings of one length whose digits sort as their values do. */
  predicate AllSortable(a: string, b: string) {
    |a| == |b| && forall i | 0 <= i < |a| :: Sortable(a[i], b[i])
  }

  /** Among such strings the smaller number sorts first. */
  lemma {:induction false} HexOrder(a: string, b: string)
    requires AllSortable(a, b)
    ensures AllHex(a) && AllHex(b)
    ensures HexNumber(a) < HexNumber(b) ==> Before(a, b)
    ensures HexNumber(a) == HexNumber(b) ==> a == b || Before(a, b)
  {
    assert forall i | 0 <= i < |a| :: Sortable(a[i], b[i]);
    if a != "" {
      var n := |a| - 1;
      HexOrder(a[..n], b[..n]);
      DigitOrder(a[n], b[n]);
      assert a == a[..n] + [a[n]] && b == b[..n] + [b[n]];
      if Before(a[..n], b[..n]) {
        BeforeExtends(a[..n], b[..n], [a[n]], [b[n]]);
      } else if a[n] < b[n] {
        assert a[..n] == b[..n] ==> FirstDifference(a, b, n);
      }
    }
  }

  lemma LowerCaseSorts(a: string, b: string)
    requires |a| == |b| && AllHex(a) && LowerHex(b)
    ensures AllSortable(a, b)
  {
  }

  lemma {:induction false} DecodedNumber(s: string)
    requires HexDecode(s).Some?
    ensures AllHex(s) && FromBigEndian(HexDecode(s).value) == HexNumber(s)
    ensures |s| == 2 * |HexDecode(s).value|
  {
    hide HexNumber, HexDigit;
    if s == "" {
      NoDigits();
    } else {
      var n := |s| - 2;
      DecodedNumber(s[..n]);
      TwoMoreDigits(s);
      var bytes := HexDecode(s[..n]).value;
      var all := HexDecode(s).value;
      assert all[..|bytes|] == bytes;
    }
  }

  lemma NoDigits()
    ensures HexNumber("") == 0
  {
  }

  lemma TwoMoreDigits(s: string)
    requires |s| >= 2 && AllHex(s[..|s| - 2]) && HexDigit(s[|s| - 2]).Some? && HexDigit(s[|s| - 1]).Some?
    ensures AllHex(s)
    ensures HexNumber(s) == 256 * HexNumber(s[..|s| - 2]) + 16 * HexDigit(s[|s| - 2]).value + HexDigit(s[|s| - 1]).value
  {
    hide HexNumber, HexDigit;
    var n := |s| - 2;
    OneMoreDigit(s[..n + 1], s[..n]);
    OneMoreDigit(s, s[..n + 1]);
  }

  lemma OneMoreDigit(s: string, front: string)
    requires s != "" && front == s[..|s| - 1] && AllHex(front) && HexDigit(s[|s| - 1]).Some?
    ensures AllHex(s) && HexNumber(s) == 16 * HexNumber(front) + HexDigit(s[|s| - 1]).value
  {
    forall i | 0 <= i < |s| ensures HexDigit(s[i]).Some? {
      if i < |front| {
        assert s[i] == front[i];
      }
    }
  }

  lemma {:induction false} ZeroPadded(raw: seq<Byte>)
    ensures FromBigEndian([0, 0] + raw) == FromBigEndian(raw)
  {
    if raw == [] {
      assert FromBigEndian([0]) == 0 && [0, 0][..1] == [0];
      assert [0, 0] + raw == [0, 0];
    } else {
      var n := |raw| - 1;
      ZeroPadded(raw[..n]);
      assert ([0, 0] + raw)[..n + 2] == [0, 0] + raw[..n];
    }
  }

  /** The millisecond of an id is the number its first twelve digits write, without the counter. */
  lemma MillisIsNumber(id: string)
    requires Millis(id).Some?
    ensures |id| == 30 && AllHex(id[4..16]) && Millis(id) == Some(HexNumber(id[4..16]) / COUNTERS)
    ensures id == PREFIX + id[4..16] + id[16..]
  {
    DecodedNumber(id[4..16]);
    ZeroPadded(HexDecode(id[4..16]).value);
  }

  lemma {:induction false} EncodedInLowerCase(bytes: seq<Byte>)
    ensures LowerHex(HexEncode(bytes))
  {
    if bytes != [] {
      EncodedInLowerCase(bytes[..|bytes| - 1]);
    }
  }

  /** An id of a later millisecond sorts after, whatever the rest of the two ids, provided
      the digits sort as their values do. */
  lemma LaterSortsAfter(a: string, b: string)
    requires Millis(a).Some? && Millis(b).Some? && Millis(a).value < Millis(b).value
    requires AllSortable(a[4..16], b[4..16])
    ensures Before(a, b)
  {
    MillisIsNumber(a);
    MillisIsNumber(b);
    HexOrder(a[4..16], b[4..16]);
    BeforeUnderPrefix(PREFIX, a[4..16], b[4..16]);
    BeforeExtends(PREFIX + a[4..16], PREFIX + b[4..16], a[16..], b[16..]);
  }

  lemma MadeInLowerCase(milli: int, random: seq<Byte>)
    requires |random| == 14
    ensures |MakeId(milli, random)| == 30 && LowerHex(MakeId(milli, random)[4..16])
  {
    MakeIdDecodes(milli, random);
    EncodedInLowerCase(BigEndian(milli % EPOCH * COUNTERS + 1, 6));
  }

  lemma BeforeIsAsymmetric(a: string, b: string)
    requires Before(a, b)
    ensures !Before(b, a)
  {
    var k: nat :| FirstDifference(a, b, k);
    if Before(b, a) {
      var l: nat :| FirstDifference(b, a, l);
    }
  }

  // ---------------------------------------------------------------- one reservation

  predicate Observed(history: seq<Message>, i: nat) {
    i < |history| && Millis(history[i].id).Some?
  }

  /** The scan accepts a history exactly if it has no faulty message, reports the first fault
      otherwise, and finds the greatest millisecond. */
  lemma {:induction false} ScanMeaning(history: seq<Message>, now: int)
    ensures ScanHistory(history, now).Latest? <==> forall i | 0 <= i < |history| :: FaultOf(history[i], now).None?
    ensures ScanHistory(history, now).Faulty? ==> exists i ::
      && 0 <= i < |history| && FaultOf(history[i], now) == Some(ScanHistory(history, now).fault)
      && forall j | 0 <= j < i :: FaultOf(history[j], now).None?
    ensures ScanHistory(history, now).Latest? ==>
      forall i: nat | Observed(history, i) :: Millis(history[i].id).value <= ScanHistory(history, now).milli
    ensures ScanHistory(history, now).Latest? && ScanHistory(history, now).milli > 0 ==>
      exists i: nat :: Observed(history, i) && Millis(history[i].id).value == ScanHistory(history, now).milli
  {
    hide Millis, FaultOf;
    if history != [] {
      var n := |history| - 1;
      var front := history[..n];
      ScanMeaning(front, now);
      assert forall i | 0 <= i < n :: front[i] == history[i];
      assert forall i: nat :: Observed(front, i) ==> Observed(history, i);
      if ScanHistory(front, now).Faulty? {
        var i :| 0 <= i < n && FaultOf(front[i], now) == Some(ScanHistory(front, now).fault)
          && forall j | 0 <= j < i :: FaultOf(front[j], now).None?;
        assert FaultOf(history[i], now) == Some(ScanHistory(history, now).fault);
      } else if ScanHistory(history, now).Latest? {
        forall i: nat | Observed(history, i) ensures Millis(history[i].id).value <= ScanHistory(history, now).milli {
          if i < n {
            assert Observed(front, i);
          }
        }
        if ScanHistory(history, now).milli > ScanHistory(front, now).milli {
          assert Observed(history, n);
        } else if ScanHistory(front, now).milli > 0 {
          var i: nat :| Observed(front, i) && Millis(front[i].id).value == ScanHistory(front, now).milli;
          assert Observed(history, i);
        }
      } else {
        assert FaultOf(history[n], now) == Some(ScanHistory(history, now).fault);
      }
    }
  }

  lemma {:induction false} MillisBounded(id: string)
    requires Millis(id).Some?
    ensures Millis(id).value < EPOCH
  {
    MillisIsNumber(id);
    assert DigitsBound(12) == 0x1_0000_0000_0000 by {
      assert DigitsBound(4) == 0x1_0000;
      assert DigitsBound(8) == 0x1_0000_0000;
    }
    HexBounded(id[4..16]);
  }

  function DigitsBound(k: nat): nat {
    if k == 0 then 1 else 16 * DigitsBound(k - 1)
  }

  lemma {:induction false} HexBounded(s: string)
    requires AllHex(s)
    ensures HexNumber(s) < DigitsBound(|s|)
  {
    if s != "" {
      HexBounded(s[..|s| - 1]);
    }
  }

  predicate SameEpoch(a: int, b: int) {
    a / EPOCH == b / EPOCH
  }

  /** What a call does to the last reservation. */
  lemma ReserveStep(last: int, a: Attempt)
    ensures Reserve(last, a).1.Reserved? <==>
      && ScanHistory(a.history, a.now).Latest?
      && Target(ScanHistory(a.history, a.now).milli, last, a.now) - a.now <= MAX_LEAD
      && (Target(ScanHistory(a.history, a.now).milli, last, a.now) < a.later || !a.cancelled)
      && a.entropy.Some?
    ensures Reserve(last, a).1.Failed? ==> Reserve(last, a).0 == last
    ensures Reserve(last, a).1.Reserved? ==>
      && Reserve(last, a).0 == Reserve(last, a).1.at > last
      && a.now <= Reserve(last, a).1.at <= a.now + MAX_LEAD
  {
    if ScanHistory(a.history, a.now).Latest? {
      var latest := ScanHistory(a.history, a.now).milli;
      assert a.now % EPOCH <= latest ==> a.now <= a.now + latest - a.now % EPOCH;
    }
  }

  /** The id is handed out only after the clock has passed its millisecond, and decodes to it. */
  lemma ReservedIsPast(last: int, a: Attempt)
    requires a.Valid() && Reserve(last, a).1.Reserved?
    ensures Reserve(last, a).1.at < Reserve(last, a).1.clock
    ensures Millis(Reserve(last, a).1.id) == Some(Reserve(last, a).1.at % EPOCH)
  {
    MakeIdDecodes(Reserve(last, a).1.at, a.entropy.value);
  }

  /** An id the server generates after the reservation sorts after it, in the same epoch. */
  lemma ServerIdFollows(last: int, a: Attempt, milli: int, counter: nat, rest: string)
    requires a.Valid() && Reserve(last, a).1.Reserved?
    requires Reserve(last, a).1.clock <= milli && SameEpoch(Reserve(last, a).1.at, milli)
    requires counter < COUNTERS && |rest| == 14
    ensures Before(Reserve(last, a).1.id, PREFIX + HexEncode(BigEndian(milli % EPOCH * COUNTERS + counter, 6)) + rest)
  {
    var code := milli % EPOCH * COUNTERS + counter;
    ReservedIsPast(last, a);
    CodeDecodes(code, rest);
    EncodedInLowerCase(BigEndian(code, 6));
    MillisIsNumber(Reserve(last, a).1.id);
    LowerCaseSorts(Reserve(last, a).1.id[4..16], HexEncode(BigEndian(code, 6)));
    LaterSortsAfter(Reserve(last, a).1.id, PREFIX + HexEncode(BigEndian(code, 6)) + rest);
  }

  /** Within the clock's epoch the reserved millisecond is past every observed one. */
  lemma TargetPastHistory(latest: nat, last: int, now: int)
    requires latest < EPOCH && SameEpoch(Target(latest, last, now), now)
    ensures latest < Target(latest, last, now) % EPOCH
  {
  }

  /** A reserved id sorts after an observed one if its encoded millisecond is greater and,
      among ids written by the generator, before it if that is smaller. */
  lemma AgainstObserved(milli: int, random: seq<Byte>, id: string)
    requires |random| == 14 && Millis(id).Some?
    ensures Millis(id).value < milli % EPOCH ==> Before(id, MakeId(milli, random))
    ensures Millis(id).value > milli % EPOCH && LowerHex(id[4..16]) ==> Before(MakeId(milli, random), id)
  {
    MakeIdDecodes(milli, random);
    MadeInLowerCase(milli, random);
    MillisIsNumber(id);
    MillisIsNumber(MakeId(milli, random));
    if Millis(id).value < milli % EPOCH {
      LowerCaseSorts(id[4..16], MakeId(milli, random)[4..16]);
      LaterSortsAfter(id, MakeId(milli, random));
    } else if Millis(id).value > milli % EPOCH && LowerHex(id[4..16]) {
      LowerCaseSorts(MakeId(milli, random)[4..16], id[4..16]);
      LaterSortsAfter(MakeId(milli, random), id);
    }
  }

  /** A reserved id is greater than every id of the history, if the reserved time lies in the
      epoch of the current clock. */
  lemma GreaterThanObserved(last: int, a: Attempt, i: nat)
    requires a.Valid() && Reserve(last, a).1.Reserved?
    requires SameEpoch(Reserve(last, a).1.at, a.now)
    requires i < |a.history| && a.history[i].id != ""
    ensures Before(a.history[i].id, Reserve(last, a).1.id)
  {
    ScanMeaning(a.history, a.now);
    assert FaultOf(a.history[i], a.now).None?;
    assert Observed(a.history, i);
    LatestBounded(a.history, a.now);
    TargetPastHistory(ScanHistory(a.history, a.now).milli, last, a.now);
    AgainstObserved(Reserve(last, a).1.at, a.entropy.value, a.history[i].id);
  }

  lemma LatestBounded(history: seq<Message>, now: int)
    requires ScanHistory(history, now).Latest?
    ensures ScanHistory(history, now).milli < EPOCH
  {
    ScanMeaning(history, now);
    if ScanHistory(history, now).milli > 0 {
      var i: nat :| Observed(history, i) && Millis(history[i].id).value == ScanHistory(history, now).milli;
      MillisBounded(history[i].id);
    }
  }

  /** Every id of the history is written in the generator's lower case. */
  ghost predicate LowerCased(history: seq<Message>) {
    forall i: nat | Observed(history, i) :: LowerHex(history[i].id[4..16])
  }

  lemma TargetWithinEpoch(latest: nat, last: int, now: int)
    requires latest < EPOCH && last < now
    ensures latest < EPOCH - 1 ==> SameEpoch(Target(latest, last, now), now)
    ensures latest == EPOCH - 1 ==> Target(latest, last, now) % EPOCH == 0
  {
  }

  ghost predicate AllBefore(history: seq<Message>, id: string) {
    forall i | 0 <= i < |history| && history[i].id != "" :: Before(history[i].id, id)
  }

  /** The millisecond a call will reserve, known before it is made. */
  function TargetOf(last: int, a: Attempt): int
    requires ScanHistory(a.history, a.now).Latest?
  {
    Target(ScanHistory(a.history, a.now).milli, last, a.now)
  }

  /** The twelve digits of a millisecond's id. */
  function Digits(milli: int): string {
    HexEncode(BigEndian(milli % EPOCH * COUNTERS + 1, 6))
  }

  /** An observed id sorts below the id of a millisecond by its digits, or by the rest of the
      id if the digits are the same. */
  ghost predicate SortsBelow(id: string, milli: int, suffix: string)
    requires |id| == 30
  {
    Before(id[4..16], Digits(milli)) || (id[4..16] == Digits(milli) && Before(id[16..], suffix))
  }

  lemma BeforeInTwo(a: string, a': string, b: string, b': string)
    requires |a| == |b|
    ensures Before(a + a', b + b') <==> Before(a, b) || (a == b && Before(a', b'))
  {
    if Before(a, b) {
      BeforeExtends(a, b, a', b');
    } else if a == b && Before(a', b') {
      BeforeUnderPrefix(a, a', b');
    } else if Before(a + a', b + b') {
      var k: nat :| FirstDifference(a + a', b + b', k);
      DifferenceInTwo(a, a', b, b', k);
    }
  }

  lemma DifferenceInTwo(a: string, a': string, b: string, b': string, k: nat)
    requires |a| == |b| && FirstDifference(a + a', b + b', k)
    ensures if k < |a| then FirstDifference(a, b, k) else a == b && FirstDifference(a', b', k - |a|)
  {
    var x, y := a + a', b + b';
    assert forall i | 0 <= i < |a| :: x[i] == a[i] && y[i] == b[i];
    assert forall i | 0 <= i < |a'| :: x[|a| + i] == a'[i];
    assert forall i | 0 <= i < |b'| :: y[|a| + i] == b'[i];
    if k >= |a| {
      forall i | 0 <= i < |a| ensures a[i] == b[i] {
        assert x[i] == y[i];
      }
      forall i | 0 <= i < k - |a| ensures a'[i] == b'[i] {
        assert x[|a| + i] == y[|a| + i];
      }
    }
  }

  lemma MadeOfDigits(milli: int, random: seq<Byte>)
    requires |random| == 14
    ensures MakeId(milli, random) == PREFIX + Digits(milli) + Suffix(random) && |Digits(milli)| == 12
  {
    hide BigEndian, HexEncode, Suffix, Power256;
    var code := milli % EPOCH * COUNTERS + 1;
    SixBytes();
    LeadingZeros(code, 6);
    assert BigEndian(code, 8)[2..] == BigEndian(code, 6);
    HexRoundTrip(BigEndian(code, 6));
  }

  lemma BeforeMadeIff(id: string, milli: int, random: seq<Byte>)
    requires |random| == 14 && Millis(id).Some?
    ensures |id| == 30 && (Before(id, MakeId(milli, random)) <==> SortsBelow(id, milli, Suffix(random)))
  {
    hide Before, MakeId, Digits, Suffix, Millis;
    MillisIsNumber(id);
    MadeOfDigits(milli, random);
    var digits := id[4..16];
    BeforeInTwo(PREFIX + digits, id[16..], PREFIX + Digits(milli), Suffix(random));
    BeforeInTwo(PREFIX, digits, PREFIX, Digits(milli));
    assert (PREFIX + digits == PREFIX + Digits(milli)) <==> digits == Digits(milli) by {
      assert (PREFIX + digits)[4..] == digits && (PREFIX + Digits(milli))[4..] == Digits(milli);
    }
    NotBeforeItself(PREFIX);
  }

  lemma NotBeforeItself(a: string)
    ensures !Before(a, a)
  {
    if Before(a, a) {
      BeforeIsAsymmetric(a, a);
    }
  }

  lemma AcceptedIsObserved(a: Attempt, i: nat)
    requires ScanHistory(a.history, a.now).Latest? && i < |a.history| && a.history[i].id != ""
    ensures Millis(a.history[i].id).Some? && |a.history[i].id| == 30
    ensures Millis(a.history[i].id).value <= ScanHistory(a.history, a.now).milli
  {
    ScanMeaning(a.history, a.now);
    assert FaultOf(a.history[i], a.now).None?;
    assert Observed(a.history, i);
  }

  /** The exact condition for any history, any earlier reservation and any clock: the reserved
      id is greater than all observed ones exactly if each of them sorts below the digits of
      the target, which the caller can compute first, or has just these digits and a smaller
      rest. */
  lemma GreaterThanObservedIff(last: int, a: Attempt)
    requires a.Valid() && Reserve(last, a).1.Reserved?
    ensures forall i | 0 <= i < |a.history| && a.history[i].id != "" :: |a.history[i].id| == 30
    ensures AllBefore(a.history, Reserve(last, a).1.id) <==>
      forall i | 0 <= i < |a.history| && a.history[i].id != "" ::
        SortsBelow(a.history[i].id, TargetOf(last, a), Suffix(a.entropy.value))
  {
    hide Before, SortsBelow, Millis, MakeId, Suffix, ScanHistory, Target;
    forall i | 0 <= i < |a.history| && a.history[i].id != ""
      ensures |a.history[i].id| == 30
      ensures Before(a.history[i].id, Reserve(last, a).1.id)
        <==> SortsBelow(a.history[i].id, TargetOf(last, a), Suffix(a.entropy.value))
    {
      AcceptedIsObserved(a, i);
      BeforeMadeIff(a.history[i].id, TargetOf(last, a), a.entropy.value);
    }
  }

  lemma LatestSortsAfter(last: int, a: Attempt) returns (i: nat)
    requires a.Valid() && Reserve(last, a).1.Reserved? && LowerCased(a.history)
    requires ScanHistory(a.history, a.now).milli > TargetOf(last, a) % EPOCH
    ensures i < |a.history| && a.history[i].id != "" && !Before(a.history[i].id, Reserve(last, a).1.id)
  {
    ScanMeaning(a.history, a.now);
    i :| Observed(a.history, i) && Millis(a.history[i].id).value == ScanHistory(a.history, a.now).milli;
    AgainstObserved(TargetOf(last, a), a.entropy.value, a.history[i].id);
    BeforeIsAsymmetric(Reserve(last, a).1.id, a.history[i].id);
  }

  /** In terms of milliseconds, for ids in the generator's lower case: the order is right if the
      latest observed millisecond is below the target's, and wrong if it is above.  Where the
      two are equal the counters and suffixes decide. */
  lemma GreaterThanLatestIff(last: int, a: Attempt)
    requires a.Valid() && Reserve(last, a).1.Reserved? && LowerCased(a.history)
    requires ScanHistory(a.history, a.now).milli != TargetOf(last, a) % EPOCH
    ensures AllBefore(a.history, Reserve(last, a).1.id)
      <==> ScanHistory(a.history, a.now).milli < TargetOf(last, a) % EPOCH
  {
    if ScanHistory(a.history, a.now).milli < TargetOf(last, a) % EPOCH {
      forall i | 0 <= i < |a.history| && a.history[i].id != ""
        ensures Before(a.history[i].id, Reserve(last, a).1.id)
      {
        AcceptedIsObserved(a, i);
        AgainstObserved(TargetOf(last, a), a.entropy.value, a.history[i].id);
      }
    } else {
      var i := LatestSortsAfter(last, a);
    }
  }

  lemma {:induction false} DecimalBytes(bytes: seq<Byte>)
    requires forall i | 0 <= i < |bytes| :: bytes[i] < 2
    ensures forall i | 0 <= i < |HexEncode(bytes)| :: IsDecimalDigit(HexEncode(bytes)[i])
  {
    if bytes != [] {
      DecimalBytes(bytes[..|bytes| - 1]);
    }
  }

  /** The id of the first millisecond of an epoch has no letters among its digits. */
  lemma FirstDigitsAreDecimal(milli: int)
    requires milli % EPOCH == 0
    ensures forall i | 0 <= i < |Digits(milli)| :: IsDecimalDigit(Digits(milli)[i])
  {
    hide HexEncode;
    LeadingZeros(1, 4);
    LeadingZeros(1, 2);
    assert BigEndian(0, 1) == BigEndian(0, 0) + [0];
    assert BigEndian(1, 2) == BigEndian(0, 1) + [1];
    assert BigEndian(1, 6) == [0, 0, 0, 0, 0, 1];
    DecimalBytes(BigEndian(1, 6));
  }

  lemma DecimalSorts(a: string, b: string)
    requires |a| == |b| && AllHex(b) && forall i | 0 <= i < |a| :: IsDecimalDigit(a[i])
    ensures AllSortable(a, b)
  {
  }

  /** The id of the first millisecond of an epoch sorts before every id of a later one, in
      whatever case that is written. */
  lemma FirstSortsBefore(milli: int, random: seq<Byte>, id: string)
    requires |random| == 14 && milli % EPOCH == 0 && Millis(id).Some? && Millis(id).value > 0
    ensures !Before(id, MakeId(milli, random))
  {
    hide MakeId, Millis, HexEncode, BigEndian;
    MakeIdDecodes(milli, random);
    MillisIsNumber(id);
    FirstDigitsAreDecimal(milli);
    assert MakeId(milli, random)[4..16] == Digits(milli);
    DecimalSorts(Digits(milli), id[4..16]);
    LaterSortsAfter(MakeId(milli, random), id);
    BeforeIsAsymmetric(MakeId(milli, random), id);
  }

  /** When no reservation is ahead of the clock, the order is right unless the history holds
      the very last millisecond of an epoch, and then it is wrong. */
  lemma WrongOnlyAtEpochEnd(last: int, a: Attempt)
    requires a.Valid() && Reserve(last, a).1.Reserved? && last < a.now
    ensures AllBefore(a.history, Reserve(last, a).1.id) <==> ScanHistory(a.history, a.now).milli < EPOCH - 1
  {
    hide Millis, MakeId, Before;
    var latest := ScanHistory(a.history, a.now).milli;
    LatestBounded(a.history, a.now);
    TargetWithinEpoch(latest, last, a.now);
    if latest < EPOCH - 1 {
      forall i | 0 <= i < |a.history| && a.history[i].id != ""
        ensures Before(a.history[i].id, Reserve(last, a).1.id)
      {
        GreaterThanObserved(last, a, i);
      }
    } else {
      var i := LatestObserved(a);
      FirstSortsBefore(TargetOf(last, a), a.entropy.value, a.history[i].id);
    }
  }

  lemma LatestObserved(a: Attempt) returns (i: nat)
    requires ScanHistory(a.history, a.now).Latest? && ScanHistory(a.history, a.now).milli > 0
    ensures i < |a.history| && a.history[i].id != ""
      && Millis(a.history[i].id) == Some(ScanHistory(a.history, a.now).milli)
  {
    ScanMeaning(a.history, a.now);
    i :| Observed(a.history, i) && Millis(a.history[i].id).value == ScanHistory(a.history, a.now).milli;
  }

  /** A history that reaches the last millisecond of the epoch gets an id that sorts before it. */
  lemma EpochEdge() returns (a: Attempt)
    ensures a.Valid() && Reserve(0, a).1.Reserved? && |a.history| == 1
    ensures !Before(a.history[0].id, Reserve(0, a).1.id)
  {
    hide Millis, MakeId, Before, LowerHex;
    var zeros := [0, 0, 0, 0, 0, 0, 0, 0, 0, 0, 0, 0, 0, 0];
    var id := MakeId(EPOCH - 1, zeros);
    a := Attempt([Message(id, 0)], EPOCH - 1, EPOCH - 1, false, 0, Some(zeros));
    MakeIdDecodes(EPOCH - 1, zeros);
    MadeInLowerCase(EPOCH - 1, zeros);
    assert a.history[..0] == [];
    assert ScanHistory(a.history, a.now) == Latest(EPOCH - 1);
    assert Target(EPOCH - 1, 0, EPOCH - 1) == EPOCH;
    assert Observed(a.history, 0);
    AgainstObserved(EPOCH, zeros, id);
    BeforeIsAsymmetric(Reserve(0, a).1.id, id);
  }

  // ---------------------------------------------------------------- runs

  /** The outcomes of a sequence of calls in one process. */
  function Outcomes(last: int, attempts: seq<Attempt>): (r: seq<Outcome>)
    ensures |r| == |attempts|
    decreases |attempts|
  {
    if attempts == [] then []
    else [Reserve(last, attempts[0]).1] + Outcomes(Reserve(last, attempts[0]).0, attempts[1..])
  }

  lemma {:induction false} LaterThanLast(last: int, attempts: seq<Attempt>, j: nat)
    requires j < |attempts| && Outcomes(last, attempts)[j].Reserved?
    ensures last < Outcomes(last, attempts)[j].at
    decreases |attempts|
  {
    ReserveStep(last, attempts[0]);
    if j > 0 {
      LaterThanLast(Reserve(last, attempts[0]).0, attempts[1..], j - 1);
    }
  }

  lemma {:induction false} OutcomeIsMade(last: int, attempts: seq<Attempt>, j: nat)
    requires j < |attempts| && attempts[j].Valid() && Outcomes(last, attempts)[j].Reserved?
    ensures attempts[j].entropy.Some?
    ensures Outcomes(last, attempts)[j].id == MakeId(Outcomes(last, attempts)[j].at, attempts[j].entropy.value)
    decreases |attempts|
  {
    if j > 0 {
      OutcomeIsMade(Reserve(last, attempts[0]).0, attempts[1..], j - 1);
    }
  }

  /** Reserved times rise strictly over every run, whatever the clock does between calls. */
  lemma {:induction false} TimesRise(last: int, attempts: seq<Attempt>, i: nat, j: nat)
    requires i < j < |attempts| && Outcomes(last, attempts)[i].Reserved? && Outcomes(last, attempts)[j].Reserved?
    ensures Outcomes(last, attempts)[i].at < Outcomes(last, attempts)[j].at
    decreases |attempts|
  {
    var next := Reserve(last, attempts[0]).0;
    if i > 0 {
      TimesRise(next, attempts[1..], i - 1, j - 1);
    } else {
      LaterThanLast(next, attempts[1..], j - 1);
    }
  }

  /** The last reserved millisecond when the j-th call is made. */
  function LastBefore(last: int, attempts: seq<Attempt>, j: nat): int
    requires j <= |attempts|
    decreases |attempts|
  {
    if j == 0 then last else LastBefore(Reserve(last, attempts[0]).0, attempts[1..], j - 1)
  }

  lemma {:induction false} OutcomeAt(last: int, attempts: seq<Attempt>, j: nat)
    requires j < |attempts|
    ensures Outcomes(last, attempts)[j] == Reserve(LastBefore(last, attempts, j), attempts[j]).1
    decreases |attempts|
  {
    if j > 0 {
      OutcomeAt(Reserve(last, attempts[0]).0, attempts[1..], j - 1);
    }
  }

  /** The clock never shows, at the start of a call, a time before the return of an earlier one,
      and starts after the initial reservation. */
  ghost predicate ClockKeepsUp(last: int, attempts: seq<Attempt>) {
    && (forall j | 0 <= j < |attempts| :: last < attempts[j].now)
    && (forall i, j | 0 <= i < j < |attempts| && Outcomes(last, attempts)[i].Reserved? ::
          Outcomes(last, attempts)[i].clock <= attempts[j].now)
  }

  lemma ClockKeepsUpAfter(last: int, attempts: seq<Attempt>)
    requires attempts != [] && ClockKeepsUp(last, attempts) && attempts[0].Valid()
    ensures ClockKeepsUp(Reserve(last, attempts[0]).0, attempts[1..])
  {
    hide ScanHistory, MakeId, Target, Millis;
    var next, rest := Reserve(last, attempts[0]).0, attempts[1..];
    ReserveStep(last, attempts[0]);
    if Reserve(last, attempts[0]).1.Reserved? {
      ReservedIsPast(last, attempts[0]);
      assert Outcomes(last, attempts)[0].Reserved?;
    }
    forall j | 0 <= j < |rest| ensures next < rest[j].now {
      assert rest[j] == attempts[j + 1];
    }
    forall i, j | 0 <= i < j < |rest| && Outcomes(next, rest)[i].Reserved?
      ensures Outcomes(next, rest)[i].clock <= rest[j].now
    {
      assert Outcomes(last, attempts)[i + 1] == Outcomes(next, rest)[i] && attempts[j + 1] == rest[j];
    }
  }

  lemma {:induction false} NoReservationAhead(last: int, attempts: seq<Attempt>, j: nat)
    requires j < |attempts| && ClockKeepsUp(last, attempts)
    requires forall i | 0 <= i < |attempts| :: attempts[i].Valid()
    ensures LastBefore(last, attempts, j) < attempts[j].now
    decreases |attempts|
  {
    if j > 0 {
      ClockKeepsUpAfter(last, attempts);
      NoReservationAhead(Reserve(last, attempts[0]).0, attempts[1..], j - 1);
    }
  }

  /** Over every run on a clock that never turns back, a reserved id is greater than all of its
      history exactly if the history does not hold the last millisecond of an epoch. */
  lemma RunsWrongOnlyAtEpochEnd(last: int, attempts: seq<Attempt>, j: nat)
    requires j < |attempts| && ClockKeepsUp(last, attempts) && Outcomes(last, attempts)[j].Reserved?
    requires forall i | 0 <= i < |attempts| :: attempts[i].Valid()
    ensures ScanHistory(attempts[j].history, attempts[j].now).Latest?
    ensures AllBefore(attempts[j].history, Outcomes(last, attempts)[j].id)
      <==> ScanHistory(attempts[j].history, attempts[j].now).milli < EPOCH - 1
  {
    OutcomeAt(last, attempts, j);
    NoReservationAhead(last, attempts, j);
    WrongOnlyAtEpochEnd(LastBefore(last, attempts, j), attempts[j]);
  }

  /** Of two reservations less than an epoch apart, the later id is the greater one exactly if
      both times lie in the same epoch. */
  lemma IdsRise(last: int, attempts: seq<Attempt>, i: nat, j: nat)
    requires i < j < |attempts| && attempts[i].Valid() && attempts[j].Valid()
    requires Outcomes(last, attempts)[i].Reserved? && Outcomes(last, attempts)[j].Reserved?
    ensures var (first, second) := (Outcomes(last, attempts)[i], Outcomes(last, attempts)[j]);
            && (SameEpoch(first.at, second.at) ==> Before(first.id, second.id))
            && (!SameEpoch(first.at, second.at) && second.at - first.at < EPOCH ==>
                  Before(second.id, first.id) && !Before(first.id, second.id))
  {
    var first, second := Outcomes(last, attempts)[i], Outcomes(last, attempts)[j];
    TimesRise(last, attempts, i, j);
    OutcomeIsMade(last, attempts, i);
    OutcomeIsMade(last, attempts, j);
    MakeIdDecodes(first.at, attempts[i].entropy.value);
    MadeInLowerCase(first.at, attempts[i].entropy.value);
    AgainstObserved(second.at, attempts[j].entropy.value, first.id);
    if !SameEpoch(first.at, second.at) && second.at - first.at < EPOCH {
      assert first.at % EPOCH > second.at % EPOCH;
      BeforeIsAsymmetric(second.id, first.id);
    }
  }

  // ---------------------------------------------------------------- the allocator object

  class Allocator {
    var lastReserved: int

    constructor ()
      ensures lastReserved == 0
    {
      lastReserved := 0;
    }

    method Latest(history: seq<Message>, now: int) returns (scan: Scan)
      ensures scan == ScanHistory(history, now)
    {
      var latest: nat := 0;
      var i := 0;
      while i < |history|
        invariant 0 <= i <= |history|
        invariant ScanHistory(history[..i], now) == Scan.Latest(latest)
      {
        var message := history[i];
        assert history[..i + 1][..i] == history[..i];
        i := i + 1;
        var milli := Millis(message.id);
        if message.id != "" {
          if milli.None? {
            FaultSticks(history, i, now);
            return Faulty(Unsupported(message.id));
          }
          if message.created > 0 && message.created / EPOCH < now / EPOCH && milli.value > now % EPOCH {
            FaultSticks(history, i, now);
            return Faulty(EpochWrap);
          }
          if milli.value > latest {
            latest := milli.value;
          }
        }
      }
      assert history[..i] == history;
      scan := Scan.Latest(latest);
    }

    /** Reserve the id of a prompt. */
    method ReserveMessageId(a: Attempt) returns (outcome: Outcome)
      requires a.Valid()
      modifies this
      ensures (lastReserved, outcome) == Reserve(old(lastReserved), a)
    {
      var scan := Latest(a.history, a.now);
      if scan.Faulty? {
        return Failed(scan.fault);
      }
      var target := a.now;
      if scan.milli >= a.now % EPOCH {
        target := target + (scan.milli - a.now % EPOCH + 1);
      }
      if lastReserved >= target {
        target := lastReserved + 1;
      }
      if target - a.now > MAX_LEAD {
        return Failed(TooFarAhead);
      }
      var clock := a.later;
      if target - a.later + 1 > 0 {
        if a.cancelled {
          return Failed(Cancelled);
        }
        clock := clock + (target - a.later + 1) + a.overslept;
      }
      if a.entropy.None? {
        return Failed(NoEntropy);
      }
      lastReserved := target;
      outcome := Reserved(MakeId(target, a.entropy.value), target, clock);
    }
  }

  lemma {:induction false} FaultSticks(history: seq<Message>, i: nat, now: int)
    requires i <= |history| && ScanHistory(history[..i], now).Faulty?
    ensures ScanHistory(history, now) == ScanHistory(history[..i], now)
    decreases |history|
  {
    if i < |history| {
      var n := |history| - 1;
      assert history[..n][..i] == history[..i];
      FaultSticks(history[..n], i, now);
    } else {
      assert history[..i] == history;
    }
  }
}
