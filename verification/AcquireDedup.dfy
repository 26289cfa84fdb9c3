module AcquireDedup {
  // The runtime-acquire de-duplication protocol of the agent control server.
  //
  // Many callers may ask for the same operation.  The first one starts a worker that
  // calls the provider; the others wait for the worker's result.  Every caller can be
  // cancelled at any time, and so can the provider call itself, so the worker and the
  // last caller to leave race over who has to release an unwanted lease.
  //
  // Every mutex-held region of the source is one function on `ServerState`
  // (`JoinRegion`, `FinishRegion`, `LeaveRegion`, `ForgetRegion`).  A `System` adds the
  // program counters of the workers and callers, and `Apply` is one atomic step of it.
  // A run is any sequence of steps, in any order; a step that is not enabled changes
  // nothing.

  import opened Common

  type Key = string
  type EntryId = nat
  type CallerId = nat
  type LeaseId = string
  type Time = int

  const NO_LEASE: LeaseId := ""
  const STALE_AFTER_MILLIS: Time := 300000

  /** The `err` field of a cache entry. */
  datatype Fault = NoFault | ProviderFault | Canceled

  /** A cache entry.  `operationDone` says that the provider call's own context has ended. */
  datatype Entry = Entry(
    key: Key,
    at: Time,
    waiters: int,
    finished: bool,
    delivered: bool,
    abandoned: bool,
    lease: LeaseId,
    err: Fault,
    operationDone: bool)

  /** What the mutex protects: the cache, and every entry ever created (an entry id
      plays the part of the entry's address, so it is never reused). */
  datatype ServerState = ServerState(cache: map<Key, EntryId>, entries: seq<Entry>) {
    ghost predicate WellFormed() {
      forall k <- cache :: cache[k] < |entries| && entries[cache[k]].key == k
    }
  }

  datatype JoinOutcome = Refused | Joined(entry: EntryId, spawned: bool)

  // ---------------------------------------------------------------- regions

  predicate Stale(entry: Entry, now: Time) {
    entry.finished && now - entry.at > STALE_AFTER_MILLIS
  }

  function Evict(cache: map<Key, EntryId>, entries: seq<Entry>, keep: Key, now: Time): map<Key, EntryId>
    requires forall k <- cache :: cache[k] < |entries|
  {
    map k | k in cache && (k == keep || !Stale(entries[cache[k]], now)) :: cache[k]
  }

  function FreshEntry(key: Key, now: Time): Entry {
    Entry(key, now, 0, false, false, false, NO_LEASE, NoFault, false)
  }

  function JoinRegion(s: ServerState, key: Key, now: Time): (ServerState, JoinOutcome)
    requires s.WellFormed()
  {
    if key in s.cache && s.entries[s.cache[key]].abandoned then
      (s, Refused)
    else if key in s.cache then
      var e := s.cache[key];
      (s.(entries := s.entries[e := AddWaiter(s.entries[e], 1)]), Joined(e, false))
    else
      var e := |s.entries|;
      var entries := s.entries + [FreshEntry(key, now)];
      var cache := Evict(s.cache[key := e], entries, key, now);
      (ServerState(cache, entries[e := AddWaiter(entries[e], 1)]), Joined(e, true))
  }

  function AddWaiter(entry: Entry, n: int): Entry {
    entry.(waiters := entry.waiters + n)
  }

  predicate AbandonedAtFinish(entry: Entry) {
    entry.waiters == 0 || entry.operationDone
  }

  function FinishedEntry(entry: Entry, lease: LeaseId, ok: bool): Entry {
    var abandoned := AbandonedAtFinish(entry);
    var err := if abandoned then Canceled else if ok then NoFault else ProviderFault;
    entry.(lease := lease, finished := true, abandoned := abandoned, err := err)
  }

  /** The worker's first region: publish the provider's answer. */
  function FinishRegion(s: ServerState, e: EntryId, lease: LeaseId, ok: bool): (ServerState, bool)
    requires s.WellFormed() && e < |s.entries|
  {
    var abandoned := AbandonedAtFinish(s.entries[e]);
    var s' := s.(entries := s.entries[e := FinishedEntry(s.entries[e], lease, ok)]);
    (if !ok && !abandoned then ForgetRegion(s', e) else s', abandoned)
  }

  predicate LastToLeave(entry: Entry, delivered: bool) {
    entry.waiters == 1 && !entry.delivered && !delivered
  }

  function LeftEntry(entry: Entry, delivered: bool): Entry {
    if LastToLeave(entry, delivered) then
      entry.(waiters := 0, abandoned := true, operationDone := true)
    else
      entry.(waiters := entry.waiters - 1, delivered := entry.delivered || delivered)
  }

  /** A caller's deferred region: leave, and abandon the entry if nobody else wants it.
      The caller must release the lease if the worker has published it and is gone. */
  function LeaveRegion(s: ServerState, e: EntryId, delivered: bool): (ServerState, bool)
    requires s.WellFormed() && e < |s.entries|
  {
    var entry := s.entries[e];
    (s.(entries := s.entries[e := LeftEntry(entry, delivered)]),
     LastToLeave(entry, delivered) && entry.finished && entry.err == NoFault)
  }

  /** Drop the entry from the cache, unless the key has moved on to another entry. */
  function ForgetRegion(s: ServerState, e: EntryId): ServerState
    requires s.WellFormed() && e < |s.entries|
  {
    var key := s.entries[e].key;
    if key in s.cache && s.cache[key] == e then s.(cache := s.cache - {key}) else s
  }

  // ---------------------------------------------------------------- the system

  datatype Worker =
    | Acquiring
    | Answered(lease: LeaseId, ok: bool)
    | MustRelease
    | MustForget
    | Exited

  datatype CallerPc = Waiting | Leaving | Releasing | Forgetting | Returned

  /** What the call returns: nothing yet, a result with a nil error, or an error. */
  datatype Answer = NoAnswer | Granted(lease: LeaseId) | Failed

  datatype Caller = Caller(
    entry: EntryId,
    pc: CallerPc,
    contextDone: bool,
    delivered: bool,
    answer: Answer)

  /** `acquired` holds the entries whose provider call returned a nil error, and
      `released` counts the provider release calls made for each entry. */
  datatype System = System(
    server: ServerState,
    workers: seq<Worker>,
    callers: seq<Caller>,
    acquired: set<EntryId>,
    released: multiset<EntryId>)

  datatype Step =
    | Join(key: Key, now: Time)
    | CancelCaller(caller: CallerId)
    | CancelOperation(entry: EntryId)
    | ProviderReturns(entry: EntryId, lease: LeaseId, ok: bool)
    | Finish(entry: EntryId)
    | WorkerRelease(entry: EntryId)
    | WorkerForget(entry: EntryId)
    | Deliver(caller: CallerId)
    | GiveUp(caller: CallerId)
    | Leave(caller: CallerId)
    | CallerRelease(caller: CallerId)
    | CallerForget(caller: CallerId)

  const INITIAL := System(ServerState(map[], []), [], [], {}, multiset{})

  ghost predicate Typed(s: System) {
    && s.server.WellFormed()
    && |s.workers| == |s.server.entries|
    && forall c | 0 <= c < |s.callers| :: s.callers[c].entry < |s.server.entries|
  }

  predicate At(s: System, c: CallerId, pc: CallerPc) {
    c < |s.callers| && s.callers[c].pc == pc
  }

  /** Which steps may happen.  Cancellations come from outside and are always possible. */
  predicate Enabled(s: System, step: Step)
    requires Typed(s)
  {
    match step
    case Join(_, _) => true
    case CancelCaller(c) => c < |s.callers|
    case CancelOperation(e) => e < |s.workers|
    case ProviderReturns(e, _, _) => e < |s.workers| && s.workers[e].Acquiring?
    case Finish(e) => e < |s.workers| && s.workers[e].Answered?
    case WorkerRelease(e) => e < |s.workers| && s.workers[e].MustRelease?
    case WorkerForget(e) => e < |s.workers| && s.workers[e].MustForget?
    case Deliver(c) => At(s, c, Waiting) && s.server.entries[s.callers[c].entry].finished && !s.callers[c].contextDone
    case GiveUp(c) => At(s, c, Waiting) && s.callers[c].contextDone
    case Leave(c) => At(s, c, Leaving)
    case CallerRelease(c) => At(s, c, Releasing)
    case CallerForget(c) => At(s, c, Forgetting)
  }

  /** `releaseAbandonedAcquire`: an empty lease id means there is nothing to release. */
  function ReleaseLease(released: multiset<EntryId>, e: EntryId, lease: LeaseId): multiset<EntryId> {
    if lease == NO_LEASE then released else released + multiset{e}
  }

  function AnswerOf(entry: Entry): Answer {
    if entry.err == NoFault then Granted(entry.lease) else Failed
  }

  function Apply(s: System, step: Step): System
    requires Typed(s)
  {
    if !Enabled(s, step) then s else
    match step
    case Join(key, now) =>
      var (server, outcome) := JoinRegion(s.server, key, now);
      (match outcome
       case Refused => s
       case Joined(e, spawned) =>
         s.(server := server,
            workers := if spawned then s.workers + [Acquiring] else s.workers,
            callers := s.callers + [Caller(e, Waiting, false, false, NoAnswer)]))
    case CancelCaller(c) =>
      s.(callers := s.callers[c := s.callers[c].(contextDone := true)])
    case CancelOperation(e) =>
      s.(server := s.server.(entries := s.server.entries[e := s.server.entries[e].(operationDone := true)]))
    case ProviderReturns(e, lease, ok) =>
      s.(workers := s.workers[e := Answered(lease, ok)],
         acquired := if ok then s.acquired + {e} else s.acquired)
    case Finish(e) =>
      var (server, abandoned) := FinishRegion(s.server, e, s.workers[e].lease, s.workers[e].ok);
      s.(server := server, workers := s.workers[e := if abandoned then MustRelease else Exited])
    case WorkerRelease(e) =>
      s.(workers := s.workers[e := MustForget],
         released := ReleaseLease(s.released, e, s.server.entries[e].lease))
    case WorkerForget(e) =>
      s.(server := ForgetRegion(s.server, e), workers := s.workers[e := Exited])
    case Deliver(c) =>
      var caller := s.callers[c];
      s.(callers := s.callers[c := caller.(pc := Leaving, delivered := true,
        answer := AnswerOf(s.server.entries[caller.entry]))])
    case GiveUp(c) =>
      s.(callers := s.callers[c := s.callers[c].(pc := Leaving, answer := Failed)])
    case Leave(c) =>
      var caller := s.callers[c];
      var (server, release) := LeaveRegion(s.server, caller.entry, caller.delivered);
      s.(server := server, callers := s.callers[c := caller.(pc := if release then Releasing else Returned)])
    case CallerRelease(c) =>
      var caller := s.callers[c];
      s.(callers := s.callers[c := caller.(pc := Forgetting)],
         released := ReleaseLease(s.released, caller.entry, s.server.entries[caller.entry].lease))
    case CallerForget(c) =>
      var caller := s.callers[c];
      s.(server := ForgetRegion(s.server, caller.entry), callers := s.callers[c := caller.(pc := Returned)])
  }

  // ---------------------------------------------------------------- counting callers

  /** The kinds of caller the invariant counts. */
  datatype Tally = Attached | MidRelease | MidForget | Delivering | Holding

  predicate Counts(t: Tally, e: EntryId, c: Caller) {
    && c.entry == e
    && match t
       case Attached => c.pc.Waiting? || c.pc.Leaving?
       case MidRelease => c.pc.Releasing?
       case MidForget => c.pc.Forgetting?
       case Delivering => c.pc.Leaving? && c.delivered
       case Holding => c.answer.Granted?
  }

  function One(t: Tally, e: EntryId, c: Caller): nat {
    if Counts(t, e, c) then 1 else 0
  }

  function Count(t: Tally, e: EntryId, callers: seq<Caller>): nat {
    if callers == [] then 0 else Count(t, e, callers[..|callers| - 1]) + One(t, e, callers[|callers| - 1])
  }

  lemma CountAppend(t: Tally, e: EntryId, callers: seq<Caller>, c: Caller)
    ensures Count(t, e, callers + [c]) == Count(t, e, callers) + One(t, e, c)
  {
    assert (callers + [c])[..|callers|] == callers;
  }

  lemma {:induction false} CountUpdate(t: Tally, e: EntryId, callers: seq<Caller>, i: nat, c: Caller)
    requires i < |callers|
    ensures Count(t, e, callers[i := c]) == Count(t, e, callers) - One(t, e, callers[i]) + One(t, e, c)
  {
    var n := |callers| - 1;
    if i == n {
      assert callers[i := c][..n] == callers[..n];
    } else {
      assert callers[i := c][..n] == callers[..n][i := c];
      CountUpdate(t, e, callers[..n], i, c);
    }
  }

  lemma {:induction false} CountWitness(t: Tally, e: EntryId, callers: seq<Caller>, i: nat)
    requires i < |callers| && Counts(t, e, callers[i])
    ensures Count(t, e, callers) > 0
  {
    if i < |callers| - 1 {
      CountWitness(t, e, callers[..|callers| - 1], i);
    }
  }

  lemma {:induction false} CountZero(t: Tally, e: EntryId, callers: seq<Caller>)
    requires forall i | 0 <= i < |callers| :: !Counts(t, e, callers[i])
    ensures Count(t, e, callers) == 0
  {
    if callers != [] {
      CountZero(t, e, callers[..|callers| - 1]);
    }
  }

  lemma {:induction false} DeliveringAreAttached(e: EntryId, callers: seq<Caller>)
    ensures Count(Delivering, e, callers) <= Count(Attached, e, callers)
  {
    if callers != [] {
      DeliveringAreAttached(e, callers[..|callers| - 1]);
    }
  }

  // ---------------------------------------------------------------- the invariant

  predicate Cached(server: ServerState, e: EntryId)
    requires e < |server.entries|
  {
    var key := server.entries[e].key;
    key in server.cache && server.cache[key] == e
  }

  /** Everything the system knows about one entry. */
  datatype Account = Account(
    entry: Entry,
    worker: Worker,
    cached: bool,
    attached: nat,
    midRelease: nat,
    midForget: nat,
    delivering: nat,
    holding: nat,
    acquired: bool,
    released: nat)

  function AccountOf(s: System, e: EntryId): Account
    requires Typed(s) && e < |s.workers|
  {
    Account(
      s.server.entries[e],
      s.workers[e],
      Cached(s.server, e),
      Count(Attached, e, s.callers),
      Count(MidRelease, e, s.callers),
      Count(MidForget, e, s.callers),
      Count(Delivering, e, s.callers),
      Count(Holding, e, s.callers),
      e in s.acquired,
      s.released[e])
  }

  /** How often the lease of a lease-bearing entry must have been released. */
  function Once(lease: LeaseId): nat {
    if lease == NO_LEASE then 0 else 1
  }

  /** The provider has not been heard of: the entry is cached, and abandoned exactly
      when its last waiter has gone. */
  predicate UnfinishedInv(a: Account) {
    && !a.entry.finished && !a.entry.delivered
    && (a.entry.abandoned <==> a.entry.waiters == 0)
    && (a.entry.abandoned ==> a.entry.operationDone)
    && a.cached
    && a.released == a.holding == a.midRelease == a.midForget == a.delivering == 0
    && (a.acquired <==> a.worker.Answered? && a.worker.ok)
  }

  /** The worker published a nil error: its lease belongs to whoever gets it, and if
      nobody does, to the one caller that saw the last waiter leave. */
  predicate SharedInv(a: Account) {
    && a.entry.finished && a.worker.Exited? && a.acquired
    && (a.entry.delivered || a.delivering > 0 <==> a.holding > 0)
    && if a.entry.abandoned then
         && a.entry.operationDone && a.entry.waiters == 0 && !a.entry.delivered
         && a.midRelease + a.midForget <= 1
         && a.released == (if a.midRelease == 1 then 0 else Once(a.entry.lease))
         && (a.cached ==> a.midRelease + a.midForget == 1)
       else
         && (a.entry.waiters == 0 ==> a.entry.delivered)
         && a.released == a.midRelease == a.midForget == 0
  }

  /** The worker published an error: nobody holds the lease, and if the call was
      abandoned the worker releases it itself. */
  predicate RefusedInv(a: Account) {
    && a.entry.finished
    && a.holding == a.midRelease == a.midForget == 0
    && if a.entry.err == ProviderFault then
         !a.acquired && a.worker.Exited? && a.released == 0 && !a.cached
       else
         && a.entry.abandoned && !a.worker.Acquiring? && !a.worker.Answered?
         && a.released == (if a.worker.MustRelease? then 0 else Once(a.entry.lease))
         && (a.worker.Exited? ==> !a.cached)
  }

  predicate AccountInv(a: Account) {
    && a.entry.waiters == a.attached
    && a.delivering <= a.attached
    && if a.worker.Acquiring? || a.worker.Answered? then UnfinishedInv(a)
       else if a.entry.err == NoFault then SharedInv(a)
       else RefusedInv(a)
  }

  ghost predicate CallerInv(s: System, c: CallerId)
    requires Typed(s) && c < |s.callers|
  {
    var caller := s.callers[c];
    var entry := s.server.entries[caller.entry];
    && (caller.answer.Granted? ==> caller.delivered && entry.finished && caller.answer.lease == entry.lease)
    && (caller.pc.Waiting? ==> caller.answer.NoAnswer? && !caller.delivered)
    && (!caller.pc.Waiting? ==> !caller.answer.NoAnswer?)
    && (caller.pc.Leaving? && caller.delivered && entry.err == NoFault ==> caller.answer.Granted?)
  }

  ghost predicate Inv(s: System) {
    && Typed(s)
    && (forall e | 0 <= e < |s.workers| :: AccountInv(AccountOf(s, e)))
    && (forall c | 0 <= c < |s.callers| :: CallerInv(s, c))
    && (forall e | e in s.released :: e < |s.workers|)
    && (forall e | e in s.acquired :: e < |s.workers|)
  }

  // ---------------------------------------------------------------- every step keeps it

  /** What a change of caller `i` from `callers[i]` to `c` does to the counts of entry `e`. */
  lemma CallerChanged(e: EntryId, callers: seq<Caller>, i: nat, c: Caller)
    requires i < |callers|
    ensures Count(Attached, e, callers[i := c])
      == Count(Attached, e, callers) - One(Attached, e, callers[i]) + One(Attached, e, c)
    ensures Count(MidRelease, e, callers[i := c])
      == Count(MidRelease, e, callers) - One(MidRelease, e, callers[i]) + One(MidRelease, e, c)
    ensures Count(MidForget, e, callers[i := c])
      == Count(MidForget, e, callers) - One(MidForget, e, callers[i]) + One(MidForget, e, c)
    ensures Count(Delivering, e, callers[i := c])
      == Count(Delivering, e, callers) - One(Delivering, e, callers[i]) + One(Delivering, e, c)
    ensures Count(Holding, e, callers[i := c])
      == Count(Holding, e, callers) - One(Holding, e, callers[i]) + One(Holding, e, c)
  {
    CountUpdate(Attached, e, callers, i, c);
    CountUpdate(MidRelease, e, callers, i, c);
    CountUpdate(MidForget, e, callers, i, c);
    CountUpdate(Delivering, e, callers, i, c);
    CountUpdate(Holding, e, callers, i, c);
  }

  lemma CallerAdded(e: EntryId, callers: seq<Caller>, c: Caller)
    requires c.pc.Waiting? && c.answer.NoAnswer?
    ensures Count(Attached, e, callers + [c]) == Count(Attached, e, callers) + One(Attached, e, c)
    ensures Count(MidRelease, e, callers + [c]) == Count(MidRelease, e, callers)
    ensures Count(MidForget, e, callers + [c]) == Count(MidForget, e, callers)
    ensures Count(Delivering, e, callers + [c]) == Count(Delivering, e, callers)
    ensures Count(Holding, e, callers + [c]) == Count(Holding, e, callers)
  {
    CountAppend(Attached, e, callers, c);
    CountAppend(MidRelease, e, callers, c);
    CountAppend(MidForget, e, callers, c);
    CountAppend(Delivering, e, callers, c);
    CountAppend(Holding, e, callers, c);
  }

  /** Nobody can be attached to an entry that does not exist yet. */
  lemma NoCallersYet(s: System, e: EntryId)
    requires Typed(s) && e >= |s.workers|
    ensures Count(Attached, e, s.callers) == Count(MidRelease, e, s.callers) == Count(MidForget, e, s.callers) == 0
    ensures Count(Delivering, e, s.callers) == Count(Holding, e, s.callers) == 0
  {
    CountZero(Attached, e, s.callers);
    CountZero(MidRelease, e, s.callers);
    CountZero(MidForget, e, s.callers);
    CountZero(Delivering, e, s.callers);
    CountZero(Holding, e, s.callers);
  }

  /** An entry that existed before a call joined: if it is the one joined it was not
      abandoned and one more waits on it, and eviction spares unfinished entries. */
  lemma JoinedOldAccount(s: System, key: Key, now: Time, e: EntryId)
    requires Inv(s) && e < |s.workers|
    requires JoinRegion(s.server, key, now).1.Joined?
    ensures AccountInv(AccountOf(Apply(s, Join(key, now)), e))
  {
    hide Count, CallerInv;
    var s' := Apply(s, Join(key, now));
    var (server, outcome) := JoinRegion(s.server, key, now);
    CallerAdded(e, s.callers, Caller(outcome.entry, Waiting, false, false, NoAnswer));
    var a, a' := AccountOf(s, e), AccountOf(s', e);
    assert AccountInv(a);
    assert a'.cached ==> a.cached;
    assert !a.entry.finished ==> a'.cached;
    if outcome.entry == e {
      WaiterAddedAccount(a, a');
    } else {
      UncachedAccount(a, a');
    }
  }

  lemma WaiterAddedAccount(a: Account, a': Account)
    requires AccountInv(a) && !a.entry.abandoned && a.cached
    requires a' == a.(entry := AddWaiter(a.entry, 1), attached := a.attached + 1)
    ensures AccountInv(a')
  {
  }

  lemma UncachedAccount(a: Account, a': Account)
    requires AccountInv(a) && (a'.cached ==> a.cached) && (!a.entry.finished ==> a'.cached)
    requires a' == a.(cached := a'.cached)
    ensures AccountInv(a')
  {
  }

  lemma JoinedNewAccount(s: System, key: Key, now: Time)
    requires Inv(s)
    requires JoinRegion(s.server, key, now).1 == Joined(|s.workers|, true)
    ensures AccountInv(AccountOf(Apply(s, Join(key, now)), |s.workers|))
  {
    var e := |s.workers|;
    CallerAdded(e, s.callers, Caller(e, Waiting, false, false, NoAnswer));
    NoCallersYet(s, e);
  }

  lemma JoinKeepsInv(s: System, key: Key, now: Time)
    requires Inv(s)
    ensures Inv(Apply(s, Join(key, now)))
  {
    var s' := Apply(s, Join(key, now));
    if JoinRegion(s.server, key, now).1.Joined? {
      forall e | 0 <= e < |s'.workers| ensures AccountInv(AccountOf(s', e)) {
        if e < |s.workers| {
          JoinedOldAccount(s, key, now, e);
        } else {
          JoinedNewAccount(s, key, now);
        }
      }
      forall c | 0 <= c < |s'.callers| ensures CallerInv(s', c) {
        if c < |s.callers| {
          assert CallerInv(s, c);
        }
      }
    }
  }

  /** A caller's cancellation, or its choice to leave empty-handed, changes no account. */
  lemma GiveUpAccount(s: System, step: Step, c: CallerId, e: EntryId)
    requires Inv(s) && c < |s.callers| && e < |s.workers| && Enabled(s, step)
    requires step == CancelCaller(c) || step == GiveUp(c)
    ensures AccountOf(Apply(s, step), e) == AccountOf(s, e)
  {
    hide Count;
    assert CallerInv(s, c);
    CallerChanged(e, s.callers, c, Apply(s, step).callers[c]);
  }

  lemma DeliverAccount(s: System, c: CallerId, e: EntryId)
    requires Inv(s) && e < |s.workers| && Enabled(s, Deliver(c))
    ensures AccountInv(AccountOf(Apply(s, Deliver(c)), e))
  {
    hide Count;
    var s' := Apply(s, Deliver(c));
    CallerChanged(e, s.callers, c, s'.callers[c]);
    var a, a' := AccountOf(s, e), AccountOf(s', e);
    assert AccountInv(a);
    assert CallerInv(s, c);
    if s.callers[c].entry != e {
      assert a' == a;
    } else {
      CountWitness(Attached, e, s.callers, c);
      DeliveringAreAttached(e, s'.callers);
      DeliveredAccount(a, a');
    }
  }

  lemma DeliveredAccount(a: Account, a': Account)
    requires AccountInv(a) && a.entry.finished && a.attached > 0
    requires a' == a.(delivering := a.delivering + 1, holding := a.holding + if a.entry.err == NoFault then 1 else 0)
    requires a'.delivering <= a'.attached
    ensures AccountInv(a')
  {
  }

  lemma CallerReleaseAccount(s: System, c: CallerId, e: EntryId)
    requires Inv(s) && e < |s.workers| && Enabled(s, CallerRelease(c))
    ensures AccountInv(AccountOf(Apply(s, CallerRelease(c)), e))
  {
    hide Count;
    var s' := Apply(s, CallerRelease(c));
    CallerChanged(e, s.callers, c, s'.callers[c]);
    var a, a' := AccountOf(s, e), AccountOf(s', e);
    assert AccountInv(a);
    if s.callers[c].entry != e {
      assert a' == a;
    } else {
      CountWitness(MidRelease, e, s.callers, c);
    }
  }

  lemma LeaveAccount(s: System, c: CallerId, e: EntryId)
    requires Inv(s) && e < |s.workers| && Enabled(s, Leave(c))
    ensures AccountInv(AccountOf(Apply(s, Leave(c)), e))
  {
    hide Count;
    var s' := Apply(s, Leave(c));
    CallerChanged(e, s.callers, c, s'.callers[c]);
    DeliveringAreAttached(e, s'.callers);
    assert AccountInv(AccountOf(s, e));
    assert CallerInv(s, c);
    if s.callers[c].entry == e {
      CountWitness(Attached, e, s.callers, c);
      if s.callers[c].answer.Granted? {
        CountWitness(Holding, e, s.callers, c);
      }
    }
  }

  lemma CallerForgetAccount(s: System, c: CallerId, e: EntryId)
    requires Inv(s) && e < |s.workers| && Enabled(s, CallerForget(c))
    ensures AccountInv(AccountOf(Apply(s, CallerForget(c)), e))
  {
    hide Count;
    var s' := Apply(s, CallerForget(c));
    CallerChanged(e, s.callers, c, s'.callers[c]);
    assert AccountInv(AccountOf(s, e));
    if s.callers[c].entry == e {
      CountWitness(MidForget, e, s.callers, c);
    }
  }

  lemma CallerStepKeepsInv(s: System, step: Step, c: CallerId)
    requires Inv(s) && c < |s.callers| && Enabled(s, step)
    requires step == CancelCaller(c) || step == Deliver(c) || step == GiveUp(c) || step == Leave(c)
          || step == CallerRelease(c) || step == CallerForget(c)
    ensures Inv(Apply(s, step))
  {
    var s' := Apply(s, step);
    assert CallerInv(s, c);
    forall e | 0 <= e < |s'.workers| ensures AccountInv(AccountOf(s', e)) {
      if step.Leave? {
        LeaveAccount(s, c, e);
      } else if step.CallerForget? {
        CallerForgetAccount(s, c, e);
      } else if step.CallerRelease? {
        CallerReleaseAccount(s, c, e);
      } else if step.Deliver? {
        DeliverAccount(s, c, e);
      } else {
        GiveUpAccount(s, step, c, e);
      }
    }
    forall d | 0 <= d < |s'.callers| ensures CallerInv(s', d) {
      assert CallerInv(s, d);
    }
  }

  /** A step of worker `w`, or the end of its provider call's context. */
  predicate WorkerStep(step: Step, w: EntryId) {
    (step.CancelOperation? || step.ProviderReturns? || step.Finish? || step.WorkerRelease? || step.WorkerForget?)
    && step.entry == w
  }

  lemma WorkerStepAccount(s: System, step: Step, w: EntryId, e: EntryId)
    requires Inv(s) && w < |s.workers| && Enabled(s, step) && WorkerStep(step, w) && e < |s.workers|
    ensures AccountInv(AccountOf(Apply(s, step), e))
  {
    hide Count, CallerInv;
    assert AccountInv(AccountOf(s, e));
    if e != w {
      assert AccountOf(Apply(s, step), e) == AccountOf(s, e);
    }
  }

  lemma WorkerStepKeepsInv(s: System, step: Step, w: EntryId)
    requires Inv(s) && w < |s.workers| && Enabled(s, step) && WorkerStep(step, w)
    ensures Inv(Apply(s, step))
  {
    var s' := Apply(s, step);
    assert AccountInv(AccountOf(s, w));
    forall e | 0 <= e < |s'.workers| ensures AccountInv(AccountOf(s', e)) {
      WorkerStepAccount(s, step, w, e);
    }
    forall c | 0 <= c < |s'.callers| ensures CallerInv(s', c) {
      assert CallerInv(s, c);
      if s.callers[c].entry == w {
        if s.callers[c].answer.Granted? {
          CountWitness(Holding, w, s.callers, c);
        } else if s.callers[c].pc.Leaving? && s.callers[c].delivered {
          CountWitness(Delivering, w, s.callers, c);
        }
      }
    }
  }

  lemma StepKeepsInv(s: System, step: Step)
    requires Inv(s)
    ensures Inv(Apply(s, step))
  {
    if Enabled(s, step) {
      match step
      case Join(key, now) => JoinKeepsInv(s, key, now);
      case CancelCaller(c) => CallerStepKeepsInv(s, step, c);
      case Deliver(c) => CallerStepKeepsInv(s, step, c);
      case GiveUp(c) => CallerStepKeepsInv(s, step, c);
      case CallerRelease(c) => CallerStepKeepsInv(s, step, c);
      case Leave(c) => CallerStepKeepsInv(s, step, c);
      case CallerForget(c) => CallerStepKeepsInv(s, step, c);
      case CancelOperation(e) => WorkerStepKeepsInv(s, step, e);
      case ProviderReturns(e, _, _) => WorkerStepKeepsInv(s, step, e);
      case Finish(e) => WorkerStepKeepsInv(s, step, e);
      case WorkerRelease(e) => WorkerStepKeepsInv(s, step, e);
      case WorkerForget(e) => WorkerStepKeepsInv(s, step, e);
    }
  }

  // ---------------------------------------------------------------- runs

  ghost function RunFrom(s: System, steps: seq<Step>): (s': System)
    requires Inv(s)
    ensures Inv(s')
    decreases |steps|
  {
    if steps == [] then s else
      StepKeepsInv(s, steps[0]);
      RunFrom(Apply(s, steps[0]), steps[1..])
  }

  /** The state after any sequence of steps from the empty server. */
  ghost function Run(steps: seq<Step>): (s: System)
    ensures Inv(s)
  {
    RunFrom(INITIAL, steps)
  }

  /** Everyone concerned with the entry has returned: its worker and all its callers. */
  ghost predicate AllLeft(s: System, e: EntryId)
    requires Typed(s) && e < |s.workers|
  {
    s.workers[e].Exited? && forall c | 0 <= c < |s.callers| && s.callers[c].entry == e :: s.callers[c].pc.Returned?
  }

  /** Some call was answered with the entry's lease and a nil error. */
  ghost predicate HandedOut(s: System, e: EntryId)
    requires Typed(s) && e < |s.workers|
  {
    exists c | 0 <= c < |s.callers| ::
      s.callers[c].entry == e && s.callers[c].answer == Granted(s.server.entries[e].lease)
  }

  lemma HandedOutIsHolding(s: System, e: EntryId)
    requires Inv(s) && e < |s.workers|
    ensures HandedOut(s, e) <==> Count(Holding, e, s.callers) > 0
  {
    if HandedOut(s, e) {
      var c :| 0 <= c < |s.callers| && s.callers[c].entry == e
        && s.callers[c].answer == Granted(s.server.entries[e].lease);
      CountWitness(Holding, e, s.callers, c);
    } else {
      forall c | 0 <= c < |s.callers| ensures !Counts(Holding, e, s.callers[c]) {
        assert CallerInv(s, c);
      }
      CountZero(Holding, e, s.callers);
    }
  }

  /** Lease conservation.  At every moment of every run a lease is never both handed out
      and released, nor released twice; and once everyone has left, a lease the provider
      granted is either with a caller and never released by the server, or released
      exactly once and with nobody. */
  lemma LeaseConservation(steps: seq<Step>, e: EntryId)
    requires e in Run(steps).acquired
    ensures e < |Run(steps).workers|
    ensures Run(steps).released[e] <= 1
    ensures HandedOut(Run(steps), e) ==> Run(steps).released[e] == 0
    ensures AllLeft(Run(steps), e) && Run(steps).server.entries[e].lease != NO_LEASE ==>
      (HandedOut(Run(steps), e) <==> Run(steps).released[e] == 0)
  {
    var s := Run(steps);
    assert AccountInv(AccountOf(s, e));
    HandedOutIsHolding(s, e);
    if AllLeft(s, e) {
      CountZero(Attached, e, s.callers);
      CountZero(MidRelease, e, s.callers);
      CountZero(MidForget, e, s.callers);
      CountZero(Delivering, e, s.callers);
    }
  }

  /** Entries the provider did not grant are never released behind its back as a success:
      nobody is ever told there is a lease. */
  lemma NothingHandedOutWithoutProvider(steps: seq<Step>, e: EntryId)
    requires e < |Run(steps).workers| && HandedOut(Run(steps), e)
    ensures e in Run(steps).acquired
  {
    assert AccountInv(AccountOf(Run(steps), e));
    HandedOutIsHolding(Run(steps), e);
  }

  /** Single flight: two provider calls for the same key are never in flight together. */
  lemma SingleFlight(steps: seq<Step>, d: EntryId, e: EntryId)
    requires d < |Run(steps).workers| && e < |Run(steps).workers|
    requires Run(steps).workers[d].Acquiring? && Run(steps).workers[e].Acquiring?
    requires Run(steps).server.entries[d].key == Run(steps).server.entries[e].key
    ensures d == e
  {
    assert AccountInv(AccountOf(Run(steps), d));
    assert AccountInv(AccountOf(Run(steps), e));
  }

  lemma AbandonedAfterStep(s: System, step: Step, e: EntryId)
    requires Inv(s) && e < |s.workers| && s.server.entries[e].abandoned
    ensures e < |Apply(s, step).workers|
    ensures Apply(s, step).server.entries[e].abandoned
    ensures Apply(s, step).server.entries[e].waiters <= s.server.entries[e].waiters
  {
    assert AccountInv(AccountOf(s, e));
  }

  /** An abandoned entry stays abandoned and is never joined, however the run goes on. */
  lemma {:induction false} AbandonedForGood(s: System, steps: seq<Step>, e: EntryId)
    requires Inv(s) && e < |s.workers| && s.server.entries[e].abandoned
    ensures e < |RunFrom(s, steps).workers|
    ensures RunFrom(s, steps).server.entries[e].abandoned
    ensures RunFrom(s, steps).server.entries[e].waiters <= s.server.entries[e].waiters
    decreases |steps|
  {
    if steps != [] {
      StepKeepsInv(s, steps[0]);
      AbandonedAfterStep(s, steps[0], e);
      AbandonedForGood(Apply(s, steps[0]), steps[1..], e);
    }
  }

  /** Any abandoned entry that still blocks its key has someone on the way to remove it. */
  lemma AbandonedHasOwner(steps: seq<Step>, key: Key)
    requires key in Run(steps).server.cache
    requires Run(steps).server.entries[Run(steps).server.cache[key]].abandoned
    ensures var s := Run(steps);
            var e := s.server.cache[key];
            !s.workers[e].Exited? || exists c | 0 <= c < |s.callers| ::
              s.callers[c].entry == e && (s.callers[c].pc.Releasing? || s.callers[c].pc.Forgetting?)
  {
    var s := Run(steps);
    var e := s.server.cache[key];
    assert AccountInv(AccountOf(s, e));
    if s.workers[e].Exited? && forall c | 0 <= c < |s.callers| ::
      !(s.callers[c].entry == e && (s.callers[c].pc.Releasing? || s.callers[c].pc.Forgetting?)) {
      CountZero(MidRelease, e, s.callers);
      CountZero(MidForget, e, s.callers);
      assert false;
    }
  }

  /** No poisoning: once nothing is running, every key can be asked for again. */
  lemma QuiescentNeverRefuses(steps: seq<Step>, key: Key, now: Time)
    requires forall e | 0 <= e < |Run(steps).workers| :: Run(steps).workers[e].Exited?
    requires forall c | 0 <= c < |Run(steps).callers| :: Run(steps).callers[c].pc.Returned?
    ensures JoinRegion(Run(steps).server, key, now).1.Joined?
  {
    var s := Run(steps);
    if key in s.server.cache && s.server.entries[s.server.cache[key]].abandoned {
      AbandonedHasOwner(steps, key);
    }
  }

  // ---------------------------------------------------------------- what a caller is told

  lemma {:induction false} RunFromLast(s: System, steps: seq<Step>)
    requires Inv(s) && steps != []
    ensures RunFrom(s, steps) == Apply(RunFrom(s, steps[..|steps| - 1]), steps[|steps| - 1])
    decreases |steps|
  {
    hide Apply, AccountInv, CallerInv, Typed;
    if |steps| == 1 {
      assert steps[1..] == [] && steps[..0] == [];
    } else {
      var front := steps[..|steps| - 1];
      assert front[1..] == steps[1..][..|steps| - 2];
      StepKeepsInv(s, steps[0]);
      RunFromLast(Apply(s, steps[0]), steps[1..]);
    }
  }

  lemma RunLast(steps: seq<Step>)
    requires steps != []
    ensures Run(steps) == Apply(Run(steps[..|steps| - 1]), steps[|steps| - 1])
  {
    RunFromLast(INITIAL, steps);
  }

  /** The provider's answer to the call of an entry, as the steps tell it: the first one after
      the entry was created. */
  ghost function ProviderAnswer(steps: seq<Step>, e: EntryId): Option<Worker> {
    if steps == [] then None
    else
      var front, last := steps[..|steps| - 1], steps[|steps| - 1];
      NextAnswer(Run(front), last, e, ProviderAnswer(front, e))
  }

  function NextAnswer(s: System, step: Step, e: EntryId, answer: Option<Worker>): Option<Worker> {
    if answer.None? && step.ProviderReturns? && step.entry == e && e < |s.workers|
    then Some(Worker.Answered(step.lease, step.ok)) else answer
  }

  /** The operation of an entry was ended from outside: its time ran out, or the server went down. */
  ghost predicate EndedOutside(steps: seq<Step>, e: EntryId) {
    steps != [] &&
    var front, last := steps[..|steps| - 1], steps[|steps| - 1];
    EndedOutside(front, e) || EndsOperation(Run(front), last, e)
  }

  predicate EndsOperation(s: System, step: Step, e: EntryId) {
    step == CancelOperation(e) && e < |s.workers|
  }

  /** An entry holds what the provider answered; until then its operation has ended exactly if
      it was ended from outside or its last waiter has left. */
  predicate EntryTold(entry: Entry, worker: Worker, answer: Option<Worker>, ended: bool) {
    && (worker.Acquiring? <==> answer.None?)
    && (answer.Some? ==> answer.value.Answered?)
    && (worker.Answered? ==> answer == Some(worker))
    && (entry.finished <==> !worker.Acquiring? && !worker.Answered?)
    && if entry.finished then
         && answer.Some? && entry.lease == answer.value.lease
         && (entry.err == NoFault ==> answer.value.ok)
         && (entry.err == ProviderFault ==> !answer.value.ok)
       else entry.err == NoFault && (entry.operationDone <==> ended || entry.waiters == 0)
  }

  /** A caller nobody cancelled, of an operation nobody ended, is told what the entry holds. */
  predicate CallerTold(caller: Caller, entry: Entry, ended: bool) {
    !caller.contextDone && !ended ==>
      && entry.err != Canceled
      && (caller.pc.Waiting? || (entry.finished && caller.answer == AnswerOf(entry)))
  }

  ghost predicate Told(s: System, steps: seq<Step>) {
    && Inv(s)
    && (forall e: EntryId ::
          if e < |s.workers| then
            EntryTold(s.server.entries[e], s.workers[e], ProviderAnswer(steps, e), EndedOutside(steps, e))
          else ProviderAnswer(steps, e).None? && !EndedOutside(steps, e))
    && (forall c | 0 <= c < |s.callers| ::
          CallerTold(s.callers[c], s.server.entries[s.callers[c].entry], EndedOutside(steps, s.callers[c].entry)))
  }

  lemma EntryToldJoin(s: System, step: Step, e: EntryId, answer: Option<Worker>, ended: bool)
    requires Inv(s) && e < |s.workers| && step.Join?
    requires EntryTold(s.server.entries[e], s.workers[e], answer, ended)
    ensures var s' := Apply(s, step);
            && e < |s'.workers| && e < |s'.server.entries|
            && EntryTold(s'.server.entries[e], s'.workers[e],
                         NextAnswer(s, step, e, answer), ended || EndsOperation(s, step, e))
  {
    hide Count, CallerInv;
    assert AccountInv(AccountOf(s, e));
  }

  lemma EntryToldLeave(s: System, step: Step, e: EntryId, answer: Option<Worker>, ended: bool)
    requires Inv(s) && e < |s.workers| && step.Leave?
    requires EntryTold(s.server.entries[e], s.workers[e], answer, ended)
    ensures var s' := Apply(s, step);
            && e < |s'.workers| && e < |s'.server.entries|
            && EntryTold(s'.server.entries[e], s'.workers[e],
                         NextAnswer(s, step, e, answer), ended || EndsOperation(s, step, e))
  {
    hide Count, CallerInv, JoinRegion;
    assert AccountInv(AccountOf(s, e));
    if Enabled(s, step) && s.callers[step.caller].entry == e {
      CountWitness(Attached, e, s.callers, step.caller);
      if s.callers[step.caller].delivered {
        CountWitness(Delivering, e, s.callers, step.caller);
      }
    }
  }

  lemma EntryToldFinish(s: System, step: Step, e: EntryId, answer: Option<Worker>, ended: bool)
    requires Inv(s) && e < |s.workers| && step.Finish?
    requires EntryTold(s.server.entries[e], s.workers[e], answer, ended)
    ensures var s' := Apply(s, step);
            && e < |s'.workers| && e < |s'.server.entries|
            && EntryTold(s'.server.entries[e], s'.workers[e],
                         NextAnswer(s, step, e, answer), ended || EndsOperation(s, step, e))
  {
    hide Count, CallerInv, JoinRegion, LeaveRegion;
    assert AccountInv(AccountOf(s, e));
  }

  lemma EntryToldOther(s: System, step: Step, e: EntryId, answer: Option<Worker>, ended: bool)
    requires Inv(s) && e < |s.workers| && !step.Join? && !step.Leave? && !step.Finish?
    requires EntryTold(s.server.entries[e], s.workers[e], answer, ended)
    ensures var s' := Apply(s, step);
            && e < |s'.workers| && e < |s'.server.entries|
            && EntryTold(s'.server.entries[e], s'.workers[e],
                         NextAnswer(s, step, e, answer), ended || EndsOperation(s, step, e))
  {
    hide Count, CallerInv, AccountInv, JoinRegion, LeaveRegion, FinishRegion;
  }

  lemma EntryToldStep(s: System, step: Step, e: EntryId, answer: Option<Worker>, ended: bool)
    requires Inv(s) && e < |s.workers|
    requires EntryTold(s.server.entries[e], s.workers[e], answer, ended)
    ensures var s' := Apply(s, step);
            && e < |s'.workers| && e < |s'.server.entries|
            && EntryTold(s'.server.entries[e], s'.workers[e],
                         NextAnswer(s, step, e, answer), ended || EndsOperation(s, step, e))
  {
    hide Apply, Inv, EntryTold, NextAnswer, EndsOperation;
    if step.Join? {
      EntryToldJoin(s, step, e, answer, ended);
    } else if step.Leave? {
      EntryToldLeave(s, step, e, answer, ended);
    } else if step.Finish? {
      EntryToldFinish(s, step, e, answer, ended);
    } else {
      EntryToldOther(s, step, e, answer, ended);
    }
  }

  lemma NewEntryTold(s: System, step: Step, e: EntryId)
    requires Inv(s) && |s.workers| <= e
    ensures NextAnswer(s, step, e, None).None? && !EndsOperation(s, step, e)
    ensures var s' := Apply(s, step);
            && |s'.workers| == |s'.server.entries|
            && (e < |s'.workers| ==> EntryTold(s'.server.entries[e], s'.workers[e], None, false))
  {
    hide Count, CallerInv, AccountInv;
  }

  lemma CallerToldFinish(s: System, step: Step, c: CallerId, answer: Option<Worker>, ended: bool)
    requires Inv(s) && c < |s.callers| && step.Finish?
    requires EntryTold(s.server.entries[s.callers[c].entry], s.workers[s.callers[c].entry], answer, ended)
    requires CallerTold(s.callers[c], s.server.entries[s.callers[c].entry], ended)
    ensures var s' := Apply(s, step);
            var e := s.callers[c].entry;
            && c < |s'.callers| && s'.callers[c].entry == e && e < |s'.server.entries|
            && CallerTold(s'.callers[c], s'.server.entries[e], ended || EndsOperation(s, step, e))
  {
    hide Count, JoinRegion, LeaveRegion;
    var e := s.callers[c].entry;
    assert AccountInv(AccountOf(s, e));
    assert CallerInv(s, c);
    if s.callers[c].pc.Waiting? {
      CountWitness(Attached, e, s.callers, c);
    }
  }

  lemma CallerToldServer(s: System, step: Step, c: CallerId, answer: Option<Worker>, ended: bool)
    requires Inv(s) && c < |s.callers| && (step.Join? || step.Leave?)
    requires EntryTold(s.server.entries[s.callers[c].entry], s.workers[s.callers[c].entry], answer, ended)
    requires CallerTold(s.callers[c], s.server.entries[s.callers[c].entry], ended)
    ensures var s' := Apply(s, step);
            var e := s.callers[c].entry;
            && c < |s'.callers| && s'.callers[c].entry == e && e < |s'.server.entries|
            && CallerTold(s'.callers[c], s'.server.entries[e], ended || EndsOperation(s, step, e))
  {
    hide Count, FinishRegion, AccountInv;
    assert CallerInv(s, c);
  }

  lemma CallerToldOther(s: System, step: Step, c: CallerId, answer: Option<Worker>, ended: bool)
    requires Inv(s) && c < |s.callers| && !step.Finish? && !step.Join? && !step.Leave?
    requires EntryTold(s.server.entries[s.callers[c].entry], s.workers[s.callers[c].entry], answer, ended)
    requires CallerTold(s.callers[c], s.server.entries[s.callers[c].entry], ended)
    ensures var s' := Apply(s, step);
            var e := s.callers[c].entry;
            && c < |s'.callers| && s'.callers[c].entry == e && e < |s'.server.entries|
            && CallerTold(s'.callers[c], s'.server.entries[e], ended || EndsOperation(s, step, e))
  {
    hide Count, JoinRegion, LeaveRegion, FinishRegion, AccountInv;
    assert CallerInv(s, c);
  }

  lemma CallerToldStep(s: System, step: Step, c: CallerId, answer: Option<Worker>, ended: bool)
    requires Inv(s) && c < |s.callers|
    requires EntryTold(s.server.entries[s.callers[c].entry], s.workers[s.callers[c].entry], answer, ended)
    requires CallerTold(s.callers[c], s.server.entries[s.callers[c].entry], ended)
    ensures var s' := Apply(s, step);
            var e := s.callers[c].entry;
            && c < |s'.callers| && s'.callers[c].entry == e && e < |s'.server.entries|
            && CallerTold(s'.callers[c], s'.server.entries[e], ended || EndsOperation(s, step, e))
  {
    hide Apply, Inv, EntryTold, CallerTold, EndsOperation;
    if step.Finish? {
      CallerToldFinish(s, step, c, answer, ended);
    } else if step.Join? || step.Leave? {
      CallerToldServer(s, step, c, answer, ended);
    } else {
      CallerToldOther(s, step, c, answer, ended);
    }
  }

  lemma NewCallerTold(s: System, step: Step, c: CallerId)
    requires Inv(s) && |s.callers| <= c < |Apply(s, step).callers|
    requires forall e | 0 <= e < |s.workers| && !s.server.entries[e].finished :: s.server.entries[e].err == NoFault
    ensures var s' := Apply(s, step);
            && s'.callers[c].pc.Waiting? && s'.callers[c].entry < |s'.server.entries|
            && s'.server.entries[s'.callers[c].entry].err != Canceled
  {
    hide Count, CallerInv;
    var e := Apply(s, step).callers[c].entry;
    if e < |s.workers| {
      assert AccountInv(AccountOf(s, e));
    }
  }

  lemma UnfinishedHasNoFault(s: System, steps: seq<Step>)
    requires Told(s, steps)
    ensures forall e | 0 <= e < |s.workers| && !s.server.entries[e].finished :: s.server.entries[e].err == NoFault
  {
    hide ProviderAnswer, EndedOutside, AccountInv, CallerInv;
    forall e | 0 <= e < |s.workers| && !s.server.entries[e].finished ensures s.server.entries[e].err == NoFault {
      assert EntryTold(s.server.entries[e], s.workers[e], ProviderAnswer(steps, e), EndedOutside(steps, e));
    }
  }

  lemma {:induction false} RunTold(steps: seq<Step>)
    ensures Told(Run(steps), steps)
  {
    hide Apply, Inv, EntryTold, CallerTold, NextAnswer, EndsOperation, RunFrom;
    if steps == [] {
      NothingTold();
    } else {
      var front, last := steps[..|steps| - 1], steps[|steps| - 1];
      RunTold(front);
      RunLast(steps);
      ToldStep(front, last);
      assert front + [last] == steps;
    }
  }

  lemma NothingTold()
    ensures Told(Run([]), [])
  {
  }

  lemma ToldStep(steps: seq<Step>, step: Step)
    requires Told(Run(steps), steps)
    ensures Inv(Apply(Run(steps), step)) && Told(Apply(Run(steps), step), steps + [step])
  {
    hide Apply, AccountInv, CallerInv, EntryTold, NextAnswer, EndsOperation, RunFrom;
    var s, steps' := Run(steps), steps + [step];
    assert steps'[..|steps|] == steps;
    StepKeepsInv(s, step);
    var s' := Apply(s, step);
    forall e: EntryId
      ensures if e < |s'.workers| then
          EntryTold(s'.server.entries[e], s'.workers[e], ProviderAnswer(steps', e), EndedOutside(steps', e))
        else ProviderAnswer(steps', e).None? && !EndedOutside(steps', e)
    {
      if e < |s.workers| {
        EntryToldStep(s, step, e, ProviderAnswer(steps, e), EndedOutside(steps, e));
      } else {
        NewEntryTold(s, step, e);
      }
    }
    forall c | 0 <= c < |s'.callers|
      ensures CallerTold(s'.callers[c], s'.server.entries[s'.callers[c].entry],
        EndedOutside(steps', s'.callers[c].entry))
    {
      if c < |s.callers| {
        var e := s.callers[c].entry;
        CallerToldStep(s, step, c, ProviderAnswer(steps, e), EndedOutside(steps, e));
      } else {
        UnfinishedHasNoFault(s, steps);
        NewCallerTold(s, step, c);
      }
    }
  }

  lemma {:induction false} EndedIsCancelled(steps: seq<Step>, e: EntryId)
    ensures EndedOutside(steps, e) ==> CancelOperation(e) in steps
  {
    hide Run;
    if steps != [] {
      EndedIsCancelled(steps[..|steps| - 1], e);
    }
  }

  lemma {:induction false} AnswerIsProviders(steps: seq<Step>, e: EntryId)
    ensures ProviderAnswer(steps, e).Some? ==> ProviderAnswer(steps, e).value.Answered?
    ensures ProviderAnswer(steps, e).Some? ==>
      ProviderReturns(e, ProviderAnswer(steps, e).value.lease, ProviderAnswer(steps, e).value.ok) in steps
  {
    hide Run;
    if steps != [] {
      AnswerIsProviders(steps[..|steps| - 1], e);
    }
  }

  lemma ContextStep(s: System, step: Step, c: CallerId)
    requires Inv(s) && c < |Apply(s, step).callers|
    requires Apply(s, step).callers[c].contextDone
    ensures step == CancelCaller(c) || (c < |s.callers| && s.callers[c].contextDone)
  {
    hide AccountInv, CallerInv, JoinRegion, FinishRegion, LeaveRegion;
  }

  lemma {:induction false} CancelledByStep(steps: seq<Step>, c: CallerId)
    requires c < |Run(steps).callers| && Run(steps).callers[c].contextDone
    ensures CancelCaller(c) in steps
  {
    hide Apply, RunFrom, Inv;
    if steps == [] {
      assert Run(steps) == INITIAL by { NothingYet(); }
    } else {
      var front, last := steps[..|steps| - 1], steps[|steps| - 1];
      RunLast(steps);
      ContextStep(Run(front), last, c);
      if last != CancelCaller(c) {
        CancelledByStep(front, c);
      }
    }
  }

  lemma NothingYet()
    ensures Run([]) == INITIAL
  {
  }

  /** A caller that nobody cancelled, of an operation that nobody ended, is told exactly what the
      provider answered: its lease, or its error. */
  lemma UncancelledCallerIsServed(steps: seq<Step>, c: CallerId)
    requires c < |Run(steps).callers| && !Run(steps).callers[c].pc.Waiting?
    requires CancelCaller(c) !in steps && CancelOperation(Run(steps).callers[c].entry) !in steps
    ensures var answer := ProviderAnswer(steps, Run(steps).callers[c].entry);
            && answer.Some? && answer.value.Answered?
            && Run(steps).callers[c].answer == if answer.value.ok then Granted(answer.value.lease) else Failed
  {
    hide Apply, RunFrom, AccountInv, CallerInv;
    var e := Run(steps).callers[c].entry;
    RunTold(steps);
    EndedIsCancelled(steps, e);
    if Run(steps).callers[c].contextDone {
      CancelledByStep(steps, c);
    }
    assert CallerTold(Run(steps).callers[c], Run(steps).server.entries[e], EndedOutside(steps, e));
  }

  /** A caller waits only for the provider, or for a step that somebody can take. */
  lemma NobodyWaitsInVain(steps: seq<Step>, c: CallerId)
    requires c < |Run(steps).callers| && Run(steps).callers[c].pc.Waiting?
    ensures var e := Run(steps).callers[c].entry;
            || Run(steps).workers[e].Acquiring?
            || Enabled(Run(steps), Finish(e)) || Enabled(Run(steps), Deliver(c)) || Enabled(Run(steps), GiveUp(c))
  {
    assert AccountInv(AccountOf(Run(steps), Run(steps).callers[c].entry));
  }

  /** The worker finds its result unwanted exactly if none of the entry's callers is still
      waiting or leaving, or its operation was ended from outside. */
  lemma FinishAbandonsIff(steps: seq<Step>, e: EntryId)
    requires Enabled(Run(steps), Finish(e))
    ensures var s, s' := Run(steps), Apply(Run(steps), Finish(e));
            var unwanted :=
              || EndedOutside(steps, e)
              || forall c | 0 <= c < |s.callers| && s.callers[c].entry == e ::
                   !s.callers[c].pc.Waiting? && !s.callers[c].pc.Leaving?;
            && s'.server.entries[e].finished && s'.server.entries[e].lease == s.workers[e].lease
            && (s'.workers[e].MustRelease? <==> unwanted) && (s'.server.entries[e].abandoned <==> unwanted)
            && (s'.workers[e].Exited? <==> !unwanted)
            && s'.server.entries[e].err ==
                 (if unwanted then Canceled else if s.workers[e].ok then NoFault else ProviderFault)
  {
    hide RunFrom, CallerInv;
    var s := Run(steps);
    RunTold(steps);
    assert EntryTold(s.server.entries[e], s.workers[e], ProviderAnswer(steps, e), EndedOutside(steps, e));
    assert AccountInv(AccountOf(s, e));
    AttachedMeans(s, e);
  }

  lemma AttachedMeans(s: System, e: EntryId)
    ensures Count(Attached, e, s.callers) == 0 <==>
      forall c | 0 <= c < |s.callers| && s.callers[c].entry == e ::
        !s.callers[c].pc.Waiting? && !s.callers[c].pc.Leaving?
  {
    if forall c | 0 <= c < |s.callers| && s.callers[c].entry == e ::
      !s.callers[c].pc.Waiting? && !s.callers[c].pc.Leaving? {
      CountZero(Attached, e, s.callers);
    } else {
      var c :| 0 <= c < |s.callers| && s.callers[c].entry == e
        && (s.callers[c].pc.Waiting? || s.callers[c].pc.Leaving?);
      CountWitness(Attached, e, s.callers, c);
    }
  }

  // ---------------------------------------------------------------- the server object

  /** The object the mutex protects.  Each method is one locked region. */
  class Server {
    var cache: map<Key, EntryId>
    var entries: seq<Entry>

    ghost function View(): ServerState
      reads this
    {
      ServerState(cache, entries)
    }

    constructor ()
      ensures View() == INITIAL.server
    {
      cache := map[];
      entries := [];
    }

    /** Join the key's entry, or create it and evict the stale ones. */
    method Join(key: Key, now: Time) returns (outcome: JoinOutcome)
      requires View().WellFormed()
      modifies this
      ensures View().WellFormed()
      ensures (View(), outcome) == JoinRegion(old(View()), key, now)
    {
      if key in cache && entries[cache[key]].abandoned {
        return Refused;
      }
      var spawned := key !in cache;
      if spawned {
        cache := cache[key := |entries|];
        entries := entries + [FreshEntry(key, now)];
        EvictStale(key, now);
      }
      var e := cache[key];
      entries := entries[e := entries[e].(waiters := entries[e].waiters + 1)];
      outcome := Joined(e, spawned);
    }

    method EvictStale(keep: Key, now: Time)
      requires View().WellFormed()
      modifies this`cache
      ensures cache == Evict(old(cache), entries, keep, now)
    {
      var todo := cache.Keys;
      while todo != {}
        invariant todo <= cache.Keys <= old(cache).Keys
        invariant forall k | k in cache :: cache[k] == old(cache)[k]
        invariant forall k | k in old(cache) && k !in todo ::
          k in cache <==> k == keep || !Stale(entries[old(cache)[k]], now)
        decreases todo
      {
        var k :| k in todo;
        todo := todo - {k};
        if k != keep && entries[cache[k]].finished && now - entries[cache[k]].at > STALE_AFTER_MILLIS {
          cache := cache - {k};
        }
      }
    }

    /** The worker publishes the provider's answer; it must clean up if it was abandoned. */
    method Finish(e: EntryId, lease: LeaseId, ok: bool) returns (abandoned: bool)
      requires View().WellFormed() && e < |entries|
      modifies this
      ensures View().WellFormed()
      ensures (View(), abandoned) == FinishRegion(old(View()), e, lease, ok)
    {
      abandoned := entries[e].waiters == 0 || entries[e].operationDone;
      entries := entries[e := entries[e].(
        lease := lease, finished := true, abandoned := abandoned, err := if ok then NoFault else ProviderFault)];
      if !ok && !abandoned {
        Forget(e);
      }
      if abandoned {
        entries := entries[e := entries[e].(err := Canceled)];
      }
      assert entries == old(entries)[e := FinishedEntry(old(entries)[e], lease, ok)];
    }

    /** A caller leaves; the last one to leave an unwanted result must release it. */
    method Leave(e: EntryId, delivered: bool) returns (release: bool)
      requires View().WellFormed() && e < |entries|
      modifies this`entries
      ensures View().WellFormed()
      ensures (View(), release) == LeaveRegion(old(View()), e, delivered)
    {
      entries := entries[e := entries[e].(waiters := entries[e].waiters - 1)];
      if delivered {
        entries := entries[e := entries[e].(delivered := true)];
      }
      var abandoned := entries[e].waiters == 0 && !entries[e].delivered;
      if abandoned {
        entries := entries[e := entries[e].(abandoned := true, operationDone := true)];
      }
      release := abandoned && entries[e].finished && entries[e].err == NoFault;
      assert entries == old(entries)[e := LeftEntry(old(entries)[e], delivered)];
    }

    method Forget(e: EntryId)
      requires View().WellFormed() && e < |entries|
      modifies this`cache
      ensures View().WellFormed()
      ensures View() == ForgetRegion(old(View()), e)
    {
      var key := entries[e].key;
      if key in cache && cache[key] == e {
        cache := cache - {key};
      }
    }
  }
}
