/**
 Which histories a reservation accepts, and which millisecond it picks, in terms of the
 messages alone: the spelling of their ids, the numbers these write and the times of creation.
 */
module MessageHistories {
  import opened Common
  import opened MessageIds

  /** The numbers of the id format: 36 bits of milliseconds, 12 bits of counter. */
  const TWO_36 := 68_719_476_736
  const TWO_12 := 4096

  // ---------------------------------------------------------------- spelling

  /** Both cases of a hexadecimal digit, and nothing else, have a value. */
  lemma DigitTable(c: char, n: nat)
    ensures HexDigit(c) == Some(n) <==> n < 16 && (c == "0123456789abcdef"[n] || c == "0123456789ABCDEF"[n])
  {
    if '0' <= c <= '9' && n < 16 {
      assert "0123456789abcdef"[n] == c <==> c as int - '0' as int == n;
      assert "0123456789ABCDEF"[n] == c <==> c as int - '0' as int == n;
    }
  }

  /** `msg_`, twelve hexadecimal digits and fourteen more characters. */
  predicate WellSpelled(id: string) {
    |id| == 30 && id[..4] == "msg_" && AllHex(id[4..16])
  }

  lemma {:induction false} DecodesIff(s: string)
    ensures HexDecode(s).Some? <==> |s| % 2 == 0 && AllHex(s)
    ensures HexDecode(s).Some? ==> |s| == 2 * |HexDecode(s).value|
  {
    hide HexDigit;
    if |s| >= 2 {
      var n := |s| - 2;
      DecodesIff(s[..n]);
      TwoMoreAreHex(s);
    }
  }

  lemma TwoMoreAreHex(s: string)
    requires |s| >= 2
    ensures AllHex(s) <==> AllHex(s[..|s| - 2]) && HexDigit(s[|s| - 2]).Some? && HexDigit(s[|s| - 1]).Some?
  {
    var front := s[..|s| - 2];
    assert forall i | 0 <= i < |front| :: s[i] == front[i];
  }

  /** An id has a millisecond exactly if it is spelled like one, and it is the number of its
      digits without the counter. */
  lemma SpelledHasMillis(id: string)
    ensures Millis(id).Some? <==> WellSpelled(id)
    ensures WellSpelled(id) ==> Millis(id) == Some(HexNumber(id[4..16]) / TWO_12)
  {
    hide HexDecode, HexDigit, FromBigEndian;
    if |id| == 30 {
      DecodesIff(id[4..16]);
      assert PREFIX <= id <==> id[..4] == "msg_";
      if Millis(id).Some? {
        MillisIsNumber(id);
      }
    }
  }

  // ---------------------------------------------------------------- acceptance

  /** The millisecond written in an id. */
  function Written(id: string): nat
    requires WellSpelled(id)
  {
    HexNumber(id[4..16]) / TWO_12
  }

  /** The message is known to stem from an earlier epoch, and its id would sort behind the clock's. */
  predicate Wrapped(m: Message, now: int)
    requires WellSpelled(m.id)
  {
    0 < m.created && m.created / TWO_36 < now / TWO_36 && Written(m.id) > now % TWO_36
  }

  predicate Acceptable(m: Message, now: int) {
    m.id == "" || (WellSpelled(m.id) && !Wrapped(m, now))
  }

  lemma FaultMeans(m: Message, now: int)
    ensures FaultOf(m, now).None? <==> Acceptable(m, now)
    ensures FaultOf(m, now).Some? ==>
      FaultOf(m, now).value == if WellSpelled(m.id) then EpochWrap else Unsupported(m.id)
  {
    hide Millis, WellSpelled;
    SpelledHasMillis(m.id);
  }

  /** A history is accepted exactly if each of its messages has no id, or a well-spelled one that
      is not wrapped; otherwise the first that is not decides the error. */
  lemma HistoryAcceptedIff(history: seq<Message>, now: int)
    ensures ScanHistory(history, now).Latest? <==> forall i | 0 <= i < |history| :: Acceptable(history[i], now)
    ensures ScanHistory(history, now).Faulty? ==> exists i ::
      && 0 <= i < |history| && !Acceptable(history[i], now)
      && (forall j | 0 <= j < i :: Acceptable(history[j], now))
      && ScanHistory(history, now).fault ==
           if WellSpelled(history[i].id) then EpochWrap else Unsupported(history[i].id)
  {
    hide FaultOf, Acceptable, WellSpelled, ScanHistory, Millis;
    ScanMeaning(history, now);
    forall i | 0 <= i < |history|
      ensures FaultOf(history[i], now).None? <==> Acceptable(history[i], now)
      ensures FaultOf(history[i], now).Some? ==>
        FaultOf(history[i], now).value == if WellSpelled(history[i].id) then EpochWrap else Unsupported(history[i].id)
    {
      FaultMeans(history[i], now);
    }
  }

  /** An ordinary history is always accepted: well-spelled ids, and no message known to be older
      than the clock's epoch. */
  lemma OrdinaryHistoryIsAccepted(history: seq<Message>, now: int)
    requires forall i | 0 <= i < |history| ::
      history[i].id == "" || (WellSpelled(history[i].id)
                              && (history[i].created <= 0 || history[i].created / TWO_36 >= now / TWO_36))
    ensures ScanHistory(history, now).Latest?
  {
    HistoryAcceptedIff(history, now);
  }

  /** The latest millisecond of an accepted history is the greatest one written in it. */
  lemma LatestIsGreatest(history: seq<Message>, now: int)
    requires ScanHistory(history, now).Latest?
    ensures forall i | 0 <= i < |history| && history[i].id != "" ::
      WellSpelled(history[i].id) && Written(history[i].id) <= ScanHistory(history, now).milli
    ensures ScanHistory(history, now).milli == 0 || exists i ::
      && 0 <= i < |history| && history[i].id != "" && WellSpelled(history[i].id)
      && Written(history[i].id) == ScanHistory(history, now).milli
  {
    hide Millis, WellSpelled, Written, FaultOf, ScanHistory;
    ScanMeaning(history, now);
    forall i | 0 <= i < |history| && history[i].id != ""
      ensures WellSpelled(history[i].id) && Written(history[i].id) <= ScanHistory(history, now).milli
    {
      WrittenIsMillis(history[i], now);
      assert Observed(history, i);
    }
    if ScanHistory(history, now).milli > 0 {
      var i: nat :| Observed(history, i) && Millis(history[i].id).value == ScanHistory(history, now).milli;
      WrittenIsMillis(history[i], now);
    }
  }

  lemma WrittenIsMillis(m: Message, now: int)
    requires (m.id != "" && FaultOf(m, now).None?) || Millis(m.id).Some?
    ensures m.id != "" && WellSpelled(m.id) && Millis(m.id) == Some(Written(m.id))
  {
    hide Millis;
    SpelledHasMillis(m.id);
  }

  // ---------------------------------------------------------------- the millisecond

  /** A millisecond the call may reserve: not before the clock, after the last reservation,
      after every observed one as it would fall in the clock's epoch, and never the first of
      that epoch. */
  predicate Suitable(t: int, last: int, a: Attempt)
    requires forall i | 0 <= i < |a.history| && a.history[i].id != "" :: WellSpelled(a.history[i].id)
  {
    && a.now <= t && last < t && a.now - a.now % TWO_36 < t
    && forall i | 0 <= i < |a.history| && a.history[i].id != "" ::
         t > a.now - a.now % TWO_36 + Written(a.history[i].id)
  }

  /** The least suitable millisecond. */
  ghost predicate Least(t: int, last: int, a: Attempt)
    requires forall i | 0 <= i < |a.history| && a.history[i].id != "" :: WellSpelled(a.history[i].id)
  {
    Suitable(t, last, a) && forall u | Suitable(u, last, a) :: t <= u
  }

  lemma TargetIsLeast(last: int, a: Attempt)
    requires ScanHistory(a.history, a.now).Latest?
    ensures forall i | 0 <= i < |a.history| && a.history[i].id != "" :: WellSpelled(a.history[i].id)
    ensures Least(TargetOf(last, a), last, a)
  {
    hide ScanHistory, WellSpelled, Written;
    LatestIsGreatest(a.history, a.now);
    var latest, t := ScanHistory(a.history, a.now).milli, TargetOf(last, a);
    forall u | Suitable(u, last, a) ensures t <= u {
      if latest > 0 {
        var i :| 0 <= i < |a.history| && a.history[i].id != "" && Written(a.history[i].id) == latest;
        assert u > a.now - a.now % TWO_36 + Written(a.history[i].id);
      }
    }
  }

  /** A call succeeds exactly if its history is acceptable, the least suitable millisecond is no
      more than five seconds ahead of the clock and already past or waited for, and the random
      source answers; and then it reserves that millisecond and returns right after it, or at once
      if it is past.  Otherwise the first of these that fails is the error, and the last
      reservation stays. */
  lemma ReserveSucceedsIff(last: int, a: Attempt)
    ensures (exists i :: 0 <= i < |a.history| && !Acceptable(a.history[i], a.now)) ==>
      && Reserve(last, a).1.Failed? && Reserve(last, a).0 == last
      && (Reserve(last, a).1.fault.EpochWrap? || Reserve(last, a).1.fault.Unsupported?)
    ensures (forall i | 0 <= i < |a.history| :: Acceptable(a.history[i], a.now)) ==>
      forall t | Least(t, last, a) ::
        if t - a.now > 5000 then Reserve(last, a) == (last, Failed(TooFarAhead))
        else if a.later <= t && a.cancelled then Reserve(last, a) == (last, Failed(Cancelled))
        else if a.entropy.None? then Reserve(last, a) == (last, Failed(NoEntropy))
        else
          Reserve(last, a)
            == (t, Reserved(MakeId(t, a.entropy.value), t, if a.later <= t then t + 1 + a.overslept else a.later))
  {
    hide ScanHistory, Millis, MakeId, WellSpelled, Wrapped, Suitable;
    HistoryAcceptedIff(a.history, a.now);
    if ScanHistory(a.history, a.now).Latest? {
      TargetIsLeast(last, a);
    }
  }
}
