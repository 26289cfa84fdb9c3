/**
 What asking again for an operation leads to: the lease it was granted, the call still under
 way, a refusal while an unwanted lease is being given back, or a new provider call.
 */
module AcquireRetries {
  import opened Common
  import opened AcquireDedup

  /** The entry can serve whoever asks: it is neither abandoned nor failed. */
  predicate Good(s: System, e: EntryId) {
    e < |s.server.entries| && !s.server.entries[e].abandoned && s.server.entries[e].err != ProviderFault
  }

  /** Somebody is giving the entry's unwanted lease back: its worker, or its last caller. */
  ghost predicate Owned(s: System, e: EntryId) {
    && e < |s.server.entries| && e < |s.workers|
    && (|| s.workers[e].MustRelease? || s.workers[e].MustForget?
        || exists c :: 0 <= c < |s.callers| && Returning(s.callers[c], e))
  }

  predicate Returning(c: Caller, e: EntryId) {
    c.entry == e && (c.pc.Releasing? || c.pc.Forgetting?)
  }

  /** Unless the provider is still at work, the entry was at most five minutes old at every
      request of the run. */
  predicate Young(entry: Entry, steps: seq<Step>) {
    entry.finished ==> forall i | 0 <= i < |steps| && steps[i].Join? :: steps[i].now - entry.at <= 300_000
  }

  ghost predicate Stays(s: System, steps: seq<Step>, e: EntryId) {
    (Good(s, e) || Owned(s, e)) && Young(s.server.entries[e], steps)
  }

  ghost predicate AllStay(s: System, steps: seq<Step>) {
    forall e: EntryId | Stays(s, steps, e) :: Cached(s.server, e)
  }

  // ---------------------------------------------------------------- who is cached

  lemma JoinKeeps(s: System, steps: seq<Step>, step: Step, e: EntryId)
    requires Inv(s) && step.Join? && Stays(Apply(s, step), steps + [step], e)
    requires AllStay(s, steps)
    ensures Cached(Apply(s, step).server, e)
  {
    hide AccountInv, CallerInv;
    assert (steps + [step])[|steps|] == step;
    assert forall i | 0 <= i < |steps| :: (steps + [step])[i] == steps[i];
    if e < |s.server.entries| {
      if Owned(Apply(s, step), e) {
        JoinOwns(s, step, e);
      }
      assert Stays(s, steps, e);
    }
  }

  lemma JoinOwns(s: System, step: Step, e: EntryId)
    requires Inv(s) && step.Join? && e < |s.server.entries| && Owned(Apply(s, step), e)
    ensures Owned(s, e)
  {
    hide AccountInv, CallerInv, JoinRegion;
    var s' := Apply(s, step);
    if c :| 0 <= c < |s'.callers| && Returning(s'.callers[c], e) {
      assert s'.callers[c] == s.callers[c];
    }
  }

  lemma ServerKeeps(s: System, steps: seq<Step>, step: Step, e: EntryId)
    requires Inv(s) && (step.Finish? || step.Leave?) && Stays(Apply(s, step), steps + [step], e)
    requires AllStay(s, steps)
    ensures Cached(Apply(s, step).server, e)
  {
    hide CallerInv, JoinRegion, Count;
    assert forall i | 0 <= i < |steps| :: (steps + [step])[i] == steps[i];
    assert AccountInv(AccountOf(s, e));
    if s.server.entries[e].finished {
      if Enabled(s, step) && step.Leave? && s.callers[step.caller].entry == e {
        CountWitness(Attached, e, s.callers, step.caller);
      }
      if Owned(Apply(s, step), e) {
        LeaveOwns(s, step, e);
      }
      assert Good(s, e) || Owned(s, e) ==> Stays(s, steps, e);
    } else if c :| 0 <= c < |s.callers| && Returning(s.callers[c], e) {
      CountWitness(if s.callers[c].pc.Releasing? then MidRelease else MidForget, e, s.callers, c);
      assert false;
    }
  }

  lemma LeaveOwns(s: System, step: Step, e: EntryId)
    requires Inv(s) && (step.Finish? || step.Leave?) && e < |s.workers| && s.server.entries[e].finished
    requires Owned(Apply(s, step), e)
    ensures Owned(s, e) || Good(s, e)
  {
    hide CallerInv, JoinRegion, Count;
    assert AccountInv(AccountOf(s, e));
    var s' := Apply(s, step);
    if c :| 0 <= c < |s'.callers| && Returning(s'.callers[c], e) {
      if s'.callers[c] == s.callers[c] {
        assert Returning(s.callers[c], e);
      }
    }
  }

  /** Whoever forgets an entry is the last one concerned with it. */
  lemma ForgetEnds(s: System, step: Step, e: EntryId)
    requires Inv(s) && Enabled(s, step)
    requires step.WorkerForget? || step.CallerForget?
    requires e == if step.WorkerForget? then step.entry else s.callers[step.caller].entry
    ensures !Good(Apply(s, step), e) && !Owned(Apply(s, step), e)
  {
    hide CallerInv, Count, JoinRegion, LeaveRegion, FinishRegion;
    var s' := Apply(s, step);
    assert AccountInv(AccountOf(s, e));
    if step.CallerForget? {
      CountWitness(MidForget, e, s.callers, step.caller);
      CallerChanged(e, s.callers, step.caller, s'.callers[step.caller]);
    }
    if c :| 0 <= c < |s'.callers| && Returning(s'.callers[c], e) {
      CountWitness(if s'.callers[c].pc.Releasing? then MidRelease else MidForget, e, s'.callers, c);
    }
  }

  lemma OtherOwns(s: System, step: Step, e: EntryId)
    requires Inv(s) && !step.Join? && !step.Finish? && !step.Leave? && Owned(Apply(s, step), e)
    ensures Owned(s, e) && e < |s.server.entries|
  {
    hide AccountInv, CallerInv, JoinRegion, LeaveRegion, FinishRegion;
    var s' := Apply(s, step);
    if c :| 0 <= c < |s'.callers| && Returning(s'.callers[c], e) {
      assert Returning(s.callers[c], e);
    }
  }

  lemma OtherKeeps(s: System, steps: seq<Step>, step: Step, e: EntryId)
    requires Inv(s) && !step.Join? && !step.Finish? && !step.Leave? && Stays(Apply(s, step), steps + [step], e)
    requires AllStay(s, steps)
    ensures Cached(Apply(s, step).server, e)
  {
    hide AccountInv, CallerInv, JoinRegion, LeaveRegion, FinishRegion, Owned;
    assert forall i | 0 <= i < |steps| :: (steps + [step])[i] == steps[i];
    if Owned(Apply(s, step), e) {
      OtherOwns(s, step, e);
    }
    assert Stays(s, steps, e);
    if Enabled(s, step) && (step.WorkerForget? || step.CallerForget?) {
      ForgetEnds(s, step, if step.WorkerForget? then step.entry else s.callers[step.caller].entry);
    }
  }

  lemma {:induction false} RunKeeps(steps: seq<Step>)
    ensures AllStay(Run(steps), steps)
  {
    hide Apply, Inv, Stays, RunFrom, Cached;
    if steps == [] {
      NothingStays();
    } else {
      var front, last := steps[..|steps| - 1], steps[|steps| - 1];
      RunKeeps(front);
      RunLast(steps);
      assert front + [last] == steps;
      forall e: EntryId | Stays(Run(steps), steps, e)
        ensures e < |Run(steps).server.entries| && Cached(Run(steps).server, e)
      {
        StaysIsEntry(Run(steps), steps, e);
        if last.Join? {
          JoinKeeps(Run(front), front, last, e);
        } else if last.Finish? || last.Leave? {
          ServerKeeps(Run(front), front, last, e);
        } else {
          OtherKeeps(Run(front), front, last, e);
        }
      }
    }
  }

  lemma StaysIsEntry(s: System, steps: seq<Step>, e: EntryId)
    requires Stays(s, steps, e)
    ensures e < |s.server.entries|
  {
  }

  lemma NothingStays()
    ensures AllStay(Run([]), [])
  {
  }

  // ---------------------------------------------------------------- asking again

  /** The state behind one more request. */
  ghost function Asked(steps: seq<Step>, key: Key, now: Time): System {
    Apply(Run(steps), Join(key, now))
  }

  /** Whoever asks while an entry of the key is good waits with its other callers, and the
      provider is not called again. */
  lemma GoodIsShared(steps: seq<Step>, e: EntryId, now: Time)
    requires Good(Run(steps), e) && Young(Run(steps).server.entries[e], steps)
    ensures var s, s' := Run(steps), Asked(steps, Run(steps).server.entries[e].key, now);
            && s'.workers == s.workers && |s'.callers| == |s.callers| + 1
            && s'.callers[|s.callers|] == Caller(e, Waiting, false, false, NoAnswer)
  {
    hide Run, AccountInv, CallerInv;
    RunKeeps(steps);
    assert Stays(Run(steps), steps, e);
  }

  /** Whoever asks while an unwanted lease of the key is being given back is refused. */
  lemma OwnedIsRefused(steps: seq<Step>, e: EntryId, now: Time)
    requires Owned(Run(steps), e) && Young(Run(steps).server.entries[e], steps)
    ensures Asked(steps, Run(steps).server.entries[e].key, now) == Run(steps)
  {
    hide Run, CallerInv, Count;
    var s := Run(steps);
    RunKeeps(steps);
    assert Stays(s, steps, e);
    assert AccountInv(AccountOf(s, e));
    if c :| 0 <= c < |s.callers| && Returning(s.callers[c], e) {
      CountWitness(if s.callers[c].pc.Releasing? then MidRelease else MidForget, e, s.callers, c);
    }
  }

  /** A request calls the provider only if no entry of its key is good or being given back; the new
      entry is its own, it is dated now, and what is then cached of other keys is unfinished or at
      most five minutes old.  A request is refused only while an abandoned entry of its key is
      cached. */
  lemma AskedMeans(steps: seq<Step>, key: Key, now: Time)
    ensures var s, s' := Run(steps), Asked(steps, key, now);
            var n := |s.workers|;
            || (&& |s'.callers| == |s.callers| + 1 && s'.workers == s.workers
                && var e := s'.callers[|s.callers|].entry;
                   e < n && s.server.entries[e].key == key && !s.server.entries[e].abandoned)
            || (&& |s'.callers| == |s.callers| + 1 && s'.workers == s.workers + [Acquiring]
                && |s'.server.entries| == n + 1 && s'.callers[|s.callers|].entry == n && Cached(s'.server, n)
                && s'.server.entries[n].key == key && s'.server.entries[n].at == now
                && !s'.server.entries[n].finished && !s'.server.entries[n].abandoned
                && (forall e: EntryId | Stays(s, steps, e) :: s.server.entries[e].key != key)
                && forall e: EntryId | e < n ::
                     Cached(s'.server, e) <==>
                       Cached(s.server, e) && !(s.server.entries[e].finished && now - s.server.entries[e].at > 300_000))
            || (&& s' == s
                && exists e: EntryId ::
                     && e < n && Cached(s.server, e)
                     && s.server.entries[e].key == key && s.server.entries[e].abandoned)
  {
    hide Run, AccountInv, CallerInv, Owned;
    RunKeeps(steps);
    var s := Run(steps);
    if key in s.server.cache {
      assert Cached(s.server, s.server.cache[key]);
    } else {
      forall e: EntryId | Stays(s, steps, e) ensures s.server.entries[e].key != key {
        assert Cached(s.server, e);
      }
    }
  }

  // ---------------------------------------------------------------- giving up

  predicate GivesUp(s: System, c: CallerId) {
    && c < |s.callers| && s.callers[c].contextDone
    && (s.callers[c].pc.Waiting? || s.callers[c].answer == Failed)
  }

  lemma GivesUpStep(s: System, step: Step, c: CallerId)
    requires Inv(s) && GivesUp(s, c)
    ensures GivesUp(Apply(s, step), c)
  {
    hide AccountInv, CallerInv, JoinRegion, FinishRegion, LeaveRegion;
  }

  /** A caller that is cancelled while it waits is never told there is a lease, however the run goes
      on, and as long as it waits it can leave. */
  lemma {:induction false} CancelledCallerFails(steps: seq<Step>, c: CallerId, more: seq<Step>)
    requires c < |Run(steps).callers| && Run(steps).callers[c].pc.Waiting?
    ensures var s := Run(steps + [CancelCaller(c)] + more);
            GivesUp(s, c) && (s.callers[c].pc.Waiting? ==> Enabled(s, GiveUp(c)))
  {
    hide Apply, RunFrom, Inv;
    var all := steps + [CancelCaller(c)] + more;
    RunLast(all);
    if more == [] {
      assert all[..|all| - 1] == steps && all[|all| - 1] == CancelCaller(c);
      CancelsNow(Run(steps), c);
    } else {
      var n := |more| - 1;
      assert all[..|all| - 1] == steps + [CancelCaller(c)] + more[..n] && all[|all| - 1] == more[n];
      CancelledCallerFails(steps, c, more[..n]);
      GivesUpStep(Run(steps + [CancelCaller(c)] + more[..n]), more[n], c);
    }
  }

  lemma CancelsNow(s: System, c: CallerId)
    requires Inv(s) && c < |s.callers| && s.callers[c].pc.Waiting?
    ensures GivesUp(Apply(s, CancelCaller(c)), c)
  {
    hide AccountInv, CallerInv;
  }
}
