/**
 The identities the Codex plan tracker gives to plan events.

 Each newly seen `update_plan` call extends a chain of events with rising revisions; a
 call that is reported again while it is remembered gets its first identity back.
 */
module CodexPlans {
  import opened Common

  const MEMORY := 256

  datatype Identity = Identity(eventId: string, previous: string, revision: int)

  datatype Tracker = Tracker(last: string, revision: int, seen: map<string, Identity>, order: seq<string>)

  const FRESH := Tracker("", 0, map[], [])

  /** A call reported to the tracker, with the least revision it may get. */
  datatype Report = Report(call: string, floor: int)

  function EventIdOf(call: string): string {
    "codex:plan:" + call
  }

  function NewIdentity(t: Tracker, r: Report): Identity {
    Identity(EventIdOf(r.call), t.last, if r.floor > t.revision + 1 then r.floor else t.revision + 1)
  }

  function Project(t: Tracker, r: Report): (Tracker, Identity) {
    if r.call in t.seen then (t, t.seen[r.call])
    else
      var identity := NewIdentity(t, r);
      (Tracker(identity.eventId, identity.revision,
               Recollect(t.seen, t.order, r.call, identity, MEMORY), Remember(t.order, r.call, MEMORY)),
       identity)
  }

  // ---------------------------------------------------------------- runs

  /** A tracker with the calls that were new to it and the identities they got. */
  datatype History = History(tracker: Tracker, calls: seq<string>, chain: seq<Identity>)

  function Observe(h: History, r: Report): History {
    var (tracker, identity) := Project(h.tracker, r);
    if r.call in h.tracker.seen then h.(tracker := tracker)
    else History(tracker, h.calls + [r.call], h.chain + [identity])
  }

  function Run(reports: seq<Report>): History {
    if reports == [] then History(FRESH, [], [])
    else Observe(Run(reports[..|reports| - 1]), reports[|reports| - 1])
  }

  ghost predicate Chained(chain: seq<Identity>) {
    && (chain != [] ==> chain[0].previous == "")
    && (forall i | 0 < i < |chain| :: chain[i].previous == chain[i - 1].eventId)
    && (forall i, j | 0 <= i < j < |chain| :: chain[i].revision < chain[j].revision)
  }

  ghost predicate MemoryInv(t: Tracker, calls: seq<string>, chain: seq<Identity>) {
    && |calls| == |chain|
    && Recalls(t.order, calls, MEMORY) && SpacedOut(calls, MEMORY)
    && (forall call :: call in t.seen <==> call in t.order)
    && (forall i | 0 <= i < |t.order| :: t.seen[t.order[i]] == chain[|chain| - |t.order| + i])
  }

  ghost predicate ChainInv(last: string, revision: int, calls: seq<string>, chain: seq<Identity>) {
    && |calls| == |chain| && Chained(chain)
    && (forall i | 0 <= i < |chain| :: chain[i].eventId == EventIdOf(calls[i]) && chain[i].revision <= revision)
    && last == (if chain == [] then "" else chain[|chain| - 1].eventId)
    && revision == (if chain == [] then 0 else chain[|chain| - 1].revision)
  }

  ghost predicate Inv(h: History) {
    && MemoryInv(h.tracker, h.calls, h.chain)
    && ChainInv(h.tracker.last, h.tracker.revision, h.calls, h.chain)
  }

  lemma ChainGrows(last: string, revision: int, calls: seq<string>, chain: seq<Identity>, call: string,
      identity: Identity)
    requires ChainInv(last, revision, calls, chain)
    requires identity.eventId == EventIdOf(call) && identity.previous == last && revision < identity.revision
    ensures ChainInv(identity.eventId, identity.revision, calls + [call], chain + [identity])
  {
    var chain' := chain + [identity];
    forall i | 0 < i < |chain'| ensures chain'[i].previous == chain'[i - 1].eventId {
      assert chain'[i - 1] == chain[i - 1];
    }
  }

  lemma CallsGrow(order: seq<string>, calls: seq<string>, call: string)
    requires Recalls(order, calls, MEMORY) && SpacedOut(calls, MEMORY) && call !in order
    ensures Recalls(Remember(order, call, MEMORY), calls + [call], MEMORY) && SpacedOut(calls + [call], MEMORY)
    ensures Distinct(order) && |order| <= |calls| && |order| <= MEMORY
  {
    RememberRecalls(order, calls, call, MEMORY);
    UnknownIsSpacedOut(order, calls, call, MEMORY);
    SpacedOutIsDistinct(order, calls, MEMORY);
  }

  lemma MemoryGrows(t: Tracker, calls: seq<string>, chain: seq<Identity>, call: string, identity: Identity)
    requires MemoryInv(t, calls, chain) && call !in t.seen
    ensures MemoryInv(
      t.(seen := Recollect(t.seen, t.order, call, identity, MEMORY), order := Remember(t.order, call, MEMORY)),
      calls + [call], chain + [identity])
  {
    hide Remember, Recollect, Recalls, SpacedOut, Distinct;
    CallsGrow(t.order, calls, call);
    RecollectKeys(t.seen, t.order, call, identity, MEMORY);
    RecollectValues(t.seen, t.order, chain, call, identity, MEMORY);
  }

  lemma ObserveKeepsInv(h: History, r: Report)
    requires Inv(h)
    ensures Inv(Observe(h, r))
  {
    var t := h.tracker;
    if r.call !in t.seen {
      MemoryGrows(t, h.calls, h.chain, r.call, NewIdentity(t, r));
      ChainGrows(t.last, t.revision, h.calls, h.chain, r.call, NewIdentity(t, r));
    }
  }

  lemma {:induction false} RunInv(reports: seq<Report>)
    ensures Inv(Run(reports))
  {
    if reports != [] {
      RunInv(reports[..|reports| - 1]);
      ObserveKeepsInv(Run(reports[..|reports| - 1]), reports[|reports| - 1]);
    }
  }

  /** The chain law: each new call's event names its predecessor and has a greater revision. */
  lemma ChainLaw(reports: seq<Report>)
    ensures Chained(Run(reports).chain)
    ensures forall i | 0 <= i < |Run(reports).chain| ::
      i < |Run(reports).calls| && Run(reports).chain[i].eventId == "codex:plan:" + Run(reports).calls[i]
  {
    RunInv(reports);
  }

  /** The call is one of the last 256 that were new, the `k`-th. */
  predicate Recent(h: History, call: string, k: nat) {
    k < |h.calls| && |h.calls| - 256 <= k && h.calls[k] == call
  }

  lemma RecentIsSeen(h: History, call: string)
    requires Inv(h)
    ensures call in h.tracker.seen <==> exists k: nat :: Recent(h, call, k)
    ensures forall k: nat | Recent(h, call, k) :: call in h.tracker.seen && h.tracker.seen[call] == h.chain[k]
  {
    var order := h.tracker.order;
    var base := |h.calls| - |order|;
    if call in order {
      var i :| 0 <= i < |order| && order[i] == call;
      assert Recent(h, call, base + i);
    }
    forall k: nat | Recent(h, call, k) ensures call in h.tracker.seen && h.tracker.seen[call] == h.chain[k] {
      assert order[k - base] == call;
    }
  }

  /** A call gets an old identity exactly if it is one of the last 256 new calls, namely the
      identity it got then, and nothing changes; otherwise it extends the chain. */
  lemma RepeatedCall(reports: seq<Report>, r: Report)
    ensures forall k: nat | Recent(Run(reports), r.call, k) ::
      k < |Run(reports).chain| && Project(Run(reports).tracker, r) == (Run(reports).tracker, Run(reports).chain[k])
    ensures !(exists k: nat :: Recent(Run(reports), r.call, k)) ==>
      && Run(reports + [r]).chain == Run(reports).chain + [Project(Run(reports).tracker, r).1]
      && Run(reports + [r]).calls == Run(reports).calls + [r.call]
  {
    RunInv(reports);
    RecentIsSeen(Run(reports), r.call);
    assert (reports + [r])[..|reports|] == reports;
  }

  /** A new call gets the least revision that is past its predecessor's, or past zero if it is the
      first, and not below the floor it was reported with. */
  lemma RevisionIsLeast(reports: seq<Report>, r: Report)
    requires !exists k: nat :: Recent(Run(reports), r.call, k)
    ensures var chain := Run(reports).chain;
            var least := if chain == [] then 0 else chain[|chain| - 1].revision;
            var revision := Project(Run(reports).tracker, r).1.revision;
            && revision > least && revision >= r.floor
            && (revision == least + 1 || revision == r.floor)
  {
    RunInv(reports);
    RecentIsSeen(Run(reports), r.call);
  }

  /** The memory never holds more than 256 calls, each of them once. */
  lemma MemoryBounded(reports: seq<Report>)
    ensures |Run(reports).tracker.order| <= 256 && Distinct(Run(reports).tracker.order)
    ensures forall call :: call in Run(reports).tracker.seen <==> call in Run(reports).tracker.order
    ensures forall i, j | 0 <= i < j < |Run(reports).calls| && Run(reports).calls[i] == Run(reports).calls[j] ::
      j - i > 256
  {
    RunInv(reports);
    SpacedOutIsDistinct(Run(reports).tracker.order, Run(reports).calls, MEMORY);
  }

  // ---------------------------------------------------------------- the tracker object

  class PlanTracker {
    var last: string
    var revision: int
    var seen: map<string, Identity>
    var order: seq<string>

    ghost function View(): Tracker
      reads this
    {
      Tracker(last, revision, seen, order)
    }

    constructor ()
      ensures View() == FRESH
    {
      last, revision, seen, order := "", 0, map[], [];
    }

    method ProjectCall(call: string, floor: int) returns (identity: Identity)
      requires |order| <= MEMORY
      modifies this
      ensures |order| <= MEMORY
      ensures (View(), identity) == Project(old(View()), Report(call, floor))
    {
      if call in seen {
        return seen[call];
      }
      var next := revision + 1;
      if floor > next {
        next := floor;
      }
      identity := Identity(EventIdOf(call), last, next);
      if |order| == MEMORY {
        seen := seen - {order[0]};
        order := order[1..];
      }
      seen := seen[call := identity];
      order := order + [call];
      last := identity.eventId;
      revision := identity.revision;
    }
  }
}
