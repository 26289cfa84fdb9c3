/**
 The registry of terminal processes attached to a managed runtime.

 A lease records the birth identity of its process, so that a process id that is reused is
 not taken for the old process.  Reading the registry first prunes the leases whose process
 is gone; pruned leases queue up until they are drained.

 The process table changes behind the registry's back.  A world gives the table at every
 tick; a probe is what the registry read of one process id, at ticks of its own.
 */
module LeaseRegistry {
  import opened Common

  type Time = int

  /** No time at all, as in a lease that has not been given one. */
  const ZERO_TIME: Time := 0

  datatype Lease = Lease(
    id: string,
    agent: string,
    session: string,
    pid: int,
    processStart: int,
    birth: string,
    generation: nat,
    createdAt: Time,
    lastSeen: Time)

  /** The answers to reading a process: its birth token, its start time, its birth token again. */
  datatype Probe = Probe(first: Option<string>, legacy: Option<int>, second: Option<string>)

  /** The probes made during one call, by lease id. */
  type Probes = map<string, Probe>

  const FAILED := Probe(None, None, None)

  datatype Registry = Registry(leases: map<string, Lease>, pruned: seq<Lease>, native: bool)

  // ---------------------------------------------------------------- identifying a process

  function Identify(native: bool, probe: Probe): Option<(int, string)> {
    if native && (probe.first.None? || probe.first.value == "") then None
    else if probe.legacy.None? then None
    else if native && probe.second != probe.first then None
    else Some((probe.legacy.value, if native then probe.first.value else ""))
  }

  function ProbeOf(probes: Probes, id: string): Probe {
    if id in probes then probes[id] else FAILED
  }

  predicate Alive(native: bool, lease: Lease, probe: Probe) {
    if lease.birth != "" then native && probe.first == Some(lease.birth)
    else Identify(native, probe).Some? && Identify(native, probe).value.0 == lease.processStart
  }

  /** A living lease after the check: the birth token is filled in if it was missing. */
  function Refreshed(native: bool, lease: Lease, probe: Probe, now: Time): Lease {
    if lease.birth == "" && Identify(native, probe).Some?
    then lease.(birth := Identify(native, probe).value.1, lastSeen := now)
    else lease.(lastSeen := now)
  }

  // ---------------------------------------------------------------- the operations

  predicate Acceptable(lease: Lease) {
    lease.id != "" && lease.pid > 0 && lease.generation > 0
  }

  function Register(r: Registry, lease: Lease, probe: Probe, now: Time): (Registry, bool) {
    if !Acceptable(lease) || Identify(r.native, probe).None? then (r, false)
    else
      var (start, birth) := Identify(r.native, probe).value;
      var known := lease.(
        createdAt := if lease.createdAt == ZERO_TIME then now else lease.createdAt,
        processStart := start, birth := birth, lastSeen := now);
      (r.(leases := r.leases[lease.id := known]), true)
  }

  function Bind(r: Registry, id: string, pid: int, probe: Probe, now: Time): (Registry, bool) {
    if Identify(r.native, probe).None? || id !in r.leases then (r, false)
    else
      var (start, birth) := Identify(r.native, probe).value;
      var lease := r.leases[id].(pid := pid, processStart := start, birth := birth, lastSeen := now);
      (r.(leases := r.leases[id := lease]), true)
  }

  function Release(r: Registry, id: string): Registry {
    r.(leases := r.leases - {id})
  }

  function Drain(r: Registry): (Registry, seq<Lease>) {
    (r.(pruned := []), r.pruned)
  }

  function Check(r: Registry, id: string, probes: Probes, now: Time): Registry {
    if id !in r.leases then r
    else if Alive(r.native, r.leases[id], ProbeOf(probes, id)) then
      r.(leases := r.leases[id := Refreshed(r.native, r.leases[id], ProbeOf(probes, id), now)])
    else r.(leases := r.leases - {id}, pruned := r.pruned + [r.leases[id]])
  }

  /** Check the leases in some order. */
  function Prune(r: Registry, order: seq<string>, probes: Probes, now: Time): Registry {
    if order == [] then r
    else Check(Prune(r, order[..|order| - 1], probes, now), order[|order| - 1], probes, now)
  }

  /** An order in which a map with these keys may be gone through. */
  ghost predicate Orders(order: seq<string>, keys: set<string>) {
    Distinct(order) && forall id :: id in order <==> id in keys
  }

  function Adopted(leases: map<string, Lease>, snapshot: map<string, Lease>): map<string, Lease> {
    map id | id in leases.Keys + snapshot.Keys && (id in leases || Adoptable(id, snapshot[id])) ::
      if id in snapshot && Adoptable(id, snapshot[id]) then Named(id, snapshot[id]) else leases[id]
  }

  function Named(id: string, lease: Lease): Lease {
    if lease.id == "" then lease.(id := id) else lease
  }

  predicate Adoptable(id: string, lease: Lease) {
    Named(id, lease).id == id && lease.pid > 0 && lease.generation > 0
  }

  // ---------------------------------------------------------------- pruning in any order

  ghost predicate Keyed(leases: map<string, Lease>) {
    forall id | id in leases :: leases[id].id == id
  }

  predicate Survives(r: Registry, id: string, probes: Probes) {
    id in r.leases && Alive(r.native, r.leases[id], ProbeOf(probes, id))
  }

  /** The leases a liveness check must remove, whatever order it goes in. */
  ghost function Dead(r: Registry, probes: Probes): set<Lease> {
    set id | id in r.leases && !Survives(r, id, probes) :: r.leases[id]
  }

  /** The leases after some of them have been checked: those are refreshed or removed. */
  function CheckedSoFar(r: Registry, done: set<string>, probes: Probes, now: Time): map<string, Lease> {
    map id | id in r.leases && (id in done ==> Survives(r, id, probes)) ::
      if id in done then Refreshed(r.native, r.leases[id], ProbeOf(probes, id), now) else r.leases[id]
  }

  ghost function DeadAmong(r: Registry, done: set<string>, probes: Probes): set<Lease> {
    set id | id in done && id in r.leases && !Survives(r, id, probes) :: r.leases[id]
  }

  lemma CheckOneMore(r: Registry, s: Registry, done: set<string>, id: string, probes: Probes, now: Time)
    requires s.native == r.native && s.leases == CheckedSoFar(r, done, probes, now) && id !in done
    ensures Check(s, id, probes, now).leases == CheckedSoFar(r, done + {id}, probes, now)
    ensures Check(s, id, probes, now).native == r.native
    ensures Check(s, id, probes, now).pruned
      == s.pruned + if id in r.leases && !Survives(r, id, probes) then [r.leases[id]] else []
  {
  }

  lemma OneMoreDead(r: Registry, done: set<string>, id: string, probes: Probes)
    requires Keyed(r.leases) && id !in done
    ensures multiset(DeadAmong(r, done + {id}, probes)) == multiset(DeadAmong(r, done, probes))
      + if id in r.leases && !Survives(r, id, probes) then multiset{r.leases[id]} else multiset{}
  {
    if id in r.leases && !Survives(r, id, probes) {
      assert DeadAmong(r, done + {id}, probes) == DeadAmong(r, done, probes) + {r.leases[id]};
      assert r.leases[id] !in DeadAmong(r, done, probes);
    } else {
      assert DeadAmong(r, done + {id}, probes) == DeadAmong(r, done, probes);
    }
  }

  function Elements(order: seq<string>): set<string> {
    set id | id in order
  }

  /** Exactly the leases checked have been refreshed, or removed and queued. */
  lemma {:induction false} PrunedSoFar(r: Registry, order: seq<string>, probes: Probes, now: Time)
    requires Distinct(order) && Keyed(r.leases)
    ensures Prune(r, order, probes, now).native == r.native
    ensures Prune(r, order, probes, now).leases == CheckedSoFar(r, Elements(order), probes, now)
    ensures multiset(Prune(r, order, probes, now).pruned)
      == multiset(r.pruned) + multiset(DeadAmong(r, Elements(order), probes))
  {
    if order == [] {
      assert CheckedSoFar(r, {}, probes, now) == r.leases;
    } else {
      var n := |order| - 1;
      var front, id := order[..n], order[n];
      PrunedSoFar(r, front, probes, now);
      assert order == front + [id] && id !in front;
      assert Elements(order) == Elements(front) + {id};
      CheckOneMore(r, Prune(r, front, probes, now), Elements(front), id, probes, now);
      OneMoreDead(r, Elements(front), id, probes);
    }
  }

  /** The order of the checks does not matter: the survivors are refreshed, the rest removed
      and queued, each once. */
  lemma PruneMeaning(r: Registry, order: seq<string>, probes: Probes, now: Time)
    requires Orders(order, r.leases.Keys) && Keyed(r.leases)
    ensures Prune(r, order, probes, now).leases
      == map id | id in r.leases && Survives(r, id, probes) ::
        Refreshed(r.native, r.leases[id], ProbeOf(probes, id), now)
    ensures multiset(Prune(r, order, probes, now).pruned) == multiset(r.pruned) + multiset(Dead(r, probes))
    ensures Keyed(Prune(r, order, probes, now).leases) && Prune(r, order, probes, now).native == r.native
  {
    PrunedSoFar(r, order, probes, now);
    assert Elements(order) == r.leases.Keys;
    assert Dead(r, probes) == DeadAmong(r, Elements(order), probes);
  }

  // ---------------------------------------------------------------- conservation over runs

  datatype Step =
    | RegisterStep(lease: Lease, probe: Probe, now: Time)
    | BindStep(id: string, pid: int, probe: Probe, now: Time)
    | ReleaseStep(id: string)
    | DrainStep
    | PruneStep(order: seq<string>, probes: Probes, now: Time)
    | RestoreStep(snapshot: map<string, Lease>, order: seq<string>, probes: Probes, now: Time)

  /** The registry with the leases liveness checks have removed and those drained. */
  datatype System = System(registry: Registry, removed: multiset<Lease>, drained: multiset<Lease>)

  function Restored(r: Registry, snapshot: map<string, Lease>): Registry {
    r.(leases := Adopted(r.leases, snapshot))
  }

  /** One call; `Prune`, `Active` and `Snapshot` all prune. */
  ghost function Apply(s: System, step: Step): System {
    match step
    case RegisterStep(lease, probe, now) => s.(registry := Register(s.registry, lease, probe, now).0)
    case BindStep(id, pid, probe, now) => s.(registry := Bind(s.registry, id, pid, probe, now).0)
    case ReleaseStep(id) => s.(registry := Release(s.registry, id))
    case DrainStep => s.(registry := Drain(s.registry).0, drained := s.drained + multiset(Drain(s.registry).1))
    case PruneStep(order, probes, now) =>
      if !Orders(order, s.registry.leases.Keys) then s
      else
        s.(registry := Prune(s.registry, order, probes, now), removed := s.removed + multiset(Dead(s.registry, probes)))
    case RestoreStep(snapshot, order, probes, now) =>
      var r := Restored(s.registry, snapshot);
      if !Orders(order, r.leases.Keys) then s
      else s.(registry := Prune(r, order, probes, now), removed := s.removed + multiset(Dead(r, probes)))
  }

  ghost function Run(native: bool, steps: seq<Step>): System {
    if steps == [] then System(Registry(map[], [], native), multiset{}, multiset{})
    else Apply(Run(native, steps[..|steps| - 1]), steps[|steps| - 1])
  }

  ghost predicate Inv(s: System, native: bool) {
    && s.registry.native == native && Keyed(s.registry.leases)
    && s.removed == s.drained + multiset(s.registry.pruned)
  }

  lemma StepKeepsInv(s: System, step: Step, native: bool)
    requires Inv(s, native)
    ensures Inv(Apply(s, step), native)
  {
    match step
    case PruneStep(order, probes, now) =>
      if Orders(order, s.registry.leases.Keys) {
        PruneMeaning(s.registry, order, probes, now);
      }
    case RestoreStep(snapshot, order, probes, now) =>
      var r := Restored(s.registry, snapshot);
      if Orders(order, r.leases.Keys) {
        PruneMeaning(r, order, probes, now);
      }
    case _ =>
  }

  lemma {:induction false} RunInv(native: bool, steps: seq<Step>)
    ensures Inv(Run(native, steps), native)
  {
    if steps != [] {
      RunInv(native, steps[..|steps| - 1]);
      StepKeepsInv(Run(native, steps[..|steps| - 1]), steps[|steps| - 1], native);
    }
  }

  /** Over any run, the leases removed by liveness checks are those drained and those still
      queued: none is lost and none is reported twice. */
  lemma PrunedLeasesConserved(native: bool, steps: seq<Step>)
    ensures Run(native, steps).removed == Run(native, steps).drained + multiset(Run(native, steps).registry.pruned)
  {
    RunInv(native, steps);
  }

  // ---------------------------------------------------------------- the process table

  datatype Process = Process(birth: string, started: int)

  /** The process table at every tick. */
  type World = nat -> map<int, Process>

  ghost predicate BornAt(world: World, t: nat, pid: int, birth: string) {
    pid in world(t) && world(t)[pid].birth == birth
  }

  ghost predicate StartedAt(world: World, t: nat, pid: int, started: int) {
    pid in world(t) && world(t)[pid].started == started
  }

  /** The probe read the process id in order, between two ticks; any reading may also fail. */
  ghost predicate Sampled(world: World, pid: int, from: nat, to: nat, probe: Probe) {
    exists a: nat, b: nat, c: nat ::
      && from <= a <= b <= c <= to
      && (probe.first.Some? ==> BornAt(world, a, pid, probe.first.value))
      && (probe.legacy.Some? ==> StartedAt(world, b, pid, probe.legacy.value))
      && (probe.second.Some? ==> BornAt(world, c, pid, probe.second.value))
  }

  /** A birth token is never given out twice for one process id: two sightings of it are
      sightings of one process that was there all the time in between. */
  ghost predicate TokensAreUnique(world: World) {
    forall a: nat, b: nat, c: nat, pid: int |
      a <= b <= c && pid in world(a) && pid in world(c) && world(a)[pid].birth == world(c)[pid].birth ::
      pid in world(b) && world(b)[pid] == world(a)[pid]
  }

  /** Some single process had both the start time and the birth token. */
  ghost predicate Sighted(world: World, from: nat, to: nat, pid: int, process: Process) {
    exists t: nat :: from <= t <= to && pid in world(t) && world(t)[pid] == process
  }

  /** What was identified belongs to one process, however the process table changed between
      the readings. */
  lemma IdentifiedTogether(world: World, pid: int, from: nat, to: nat, probe: Probe)
    requires Sampled(world, pid, from, to, probe) && TokensAreUnique(world)
    requires Identify(true, probe).Some?
    ensures Identify(true, probe).value.1 != ""
    ensures Sighted(world, from, to, pid, Process(Identify(true, probe).value.1, Identify(true, probe).value.0))
  {
    var a: nat, b: nat, c: nat :|
      && from <= a <= b <= c <= to
      && (probe.first.Some? ==> BornAt(world, a, pid, probe.first.value))
      && (probe.legacy.Some? ==> StartedAt(world, b, pid, probe.legacy.value))
      && (probe.second.Some? ==> BornAt(world, c, pid, probe.second.value));
    assert world(b)[pid] == world(a)[pid];
  }

  /** The readings without the second look at the token could mix two processes. */
  lemma SecondLookMatters(world: World, pid: int, x: Process, y: Process)
    requires x.birth != y.birth && x.birth != "" && x.started != y.started
    requires forall t: nat :: world(t) == map[pid := if t == 0 then x else y]
    ensures TokensAreUnique(world) && Sampled(world, pid, 0, 1, Probe(Some(x.birth), Some(y.started), Some(y.birth)))
    ensures !Sighted(world, 0, 1, pid, Process(x.birth, y.started))
    ensures Identify(true, Probe(Some(x.birth), Some(y.started), Some(y.birth))).None?
  {
    assert BornAt(world, 0, pid, x.birth) && StartedAt(world, 1, pid, y.started) && BornAt(world, 1, pid, y.birth);
  }

  /** Every probe of a call read the process table between the same two ticks. */
  ghost predicate SampledAll(world: World, from: nat, to: nat, leases: map<string, Lease>, probes: Probes) {
    forall id | id in leases :: Sampled(world, leases[id].pid, from, to, ProbeOf(probes, id))
  }

  /** Every lease left by a prune carries the birth token its process id had during the check;
      a token that was filled in belongs to the process with the recorded start time. */
  lemma SurvivorMatched(world: World, from: nat, to: nat, r: Registry, order: seq<string>, probes: Probes, now: Time,
      id: string)
    requires Orders(order, r.leases.Keys) && Keyed(r.leases) && r.native
    requires SampledAll(world, from, to, r.leases, probes) && TokensAreUnique(world)
    requires id in Prune(r, order, probes, now).leases
    ensures id in r.leases && Prune(r, order, probes, now).leases[id].pid == r.leases[id].pid
    ensures var lease := Prune(r, order, probes, now).leases[id];
            && lease.birth != "" && lease.lastSeen == now
            && (exists t: nat :: from <= t <= to && BornAt(world, t, lease.pid, lease.birth))
            && (r.leases[id].birth == ""
              ==> Sighted(world, from, to, lease.pid, Process(lease.birth, lease.processStart)))
  {
    PruneMeaning(r, order, probes, now);
    var probe := ProbeOf(probes, id);
    assert Sampled(world, r.leases[id].pid, from, to, probe);
    if r.leases[id].birth == "" {
      IdentifiedTogether(world, r.leases[id].pid, from, to, probe);
      var lease := Prune(r, order, probes, now).leases[id];
      var t: nat :| from <= t <= to && lease.pid in world(t)
        && world(t)[lease.pid] == Process(lease.birth, lease.processStart);
      assert BornAt(world, t, lease.pid, lease.birth);
    }
  }

  /** Without native tokens, a surviving lease had the recorded start time and no token. */
  lemma SurvivorMatchedLegacy(world: World, from: nat, to: nat, r: Registry, order: seq<string>, probes: Probes,
      now: Time, id: string)
    requires Orders(order, r.leases.Keys) && Keyed(r.leases) && !r.native
    requires SampledAll(world, from, to, r.leases, probes)
    requires id in Prune(r, order, probes, now).leases
    ensures id in r.leases && Prune(r, order, probes, now).leases[id] == r.leases[id].(lastSeen := now)
    ensures r.leases[id].birth == ""
    ensures exists t: nat :: from <= t <= to && StartedAt(world, t, r.leases[id].pid, r.leases[id].processStart)
  {
    PruneMeaning(r, order, probes, now);
    assert Sampled(world, r.leases[id].pid, from, to, ProbeOf(probes, id));
  }

  /** A lease whose process id was never seen with its token is removed. */
  lemma ReusedPidRemoved(world: World, from: nat, to: nat, r: Registry, order: seq<string>, probes: Probes, now: Time,
      id: string)
    requires Orders(order, r.leases.Keys) && Keyed(r.leases) && id in r.leases && r.leases[id].birth != ""
    requires SampledAll(world, from, to, r.leases, probes)
    requires forall t: nat | from <= t <= to :: !BornAt(world, t, r.leases[id].pid, r.leases[id].birth)
    ensures id !in Prune(r, order, probes, now).leases
    ensures r.leases[id] in Prune(r, order, probes, now).pruned
  {
    PruneMeaning(r, order, probes, now);
    assert Sampled(world, r.leases[id].pid, from, to, ProbeOf(probes, id));
    assert r.leases[id] in Dead(r, probes);
    assert r.leases[id] in multiset(Prune(r, order, probes, now).pruned);
  }

  /** What is known of a lease that a call returned: its process id had, during that call, the
      birth the lease records; `before` is the lease as it was when the call began. */
  ghost predicate MatchedDuring(world: World, from: nat, to: nat, native: bool, before: Lease, lease: Lease) {
    && lease.pid == before.pid && lease.processStart == before.processStart
    && if native then
         && lease.birth != "" && (before.birth != "" ==> lease.birth == before.birth)
         && (exists t: nat :: from <= t <= to && BornAt(world, t, lease.pid, lease.birth))
         && (before.birth == "" ==> Sighted(world, from, to, lease.pid, Process(lease.birth, lease.processStart)))
       else
         && lease.birth == "" == before.birth
         && (exists t: nat :: from <= t <= to && StartedAt(world, t, lease.pid, lease.processStart))
  }

  /** In every run and every evolution of the process table, each lease that the next `Active` or
      `Snapshot` returns matched its process during that call; and each lease it does not
      return is one that failed the check and has been queued. */
  lemma ReturnedLeasesMatched(
    native: bool, steps: seq<Step>, order: seq<string>, probes: Probes, now: Time, world: World, from: nat, to: nat)
    requires Orders(order, Run(native, steps).registry.leases.Keys) && TokensAreUnique(world)
    requires SampledAll(world, from, to, Run(native, steps).registry.leases, probes)
    ensures var before := Run(native, steps).registry;
            var after := Run(native, steps + [PruneStep(order, probes, now)]).registry;
            && (forall id | id in after.leases ::
                  id in before.leases && MatchedDuring(world, from, to, native, before.leases[id], after.leases[id]))
            && (forall id | id in before.leases && id !in after.leases ::
                  before.leases[id] in after.pruned && !Survives(before, id, probes))
  {
    hide Prune, Survives, Sampled, SampledAll, BornAt, StartedAt, Sighted, Refreshed, Orders, TokensAreUnique;
    var before := Run(native, steps).registry;
    RunInv(native, steps);
    RunPlus(native, steps, PruneStep(order, probes, now));
    var after := Prune(before, order, probes, now);
    forall id | id in after.leases
      ensures id in before.leases && MatchedDuring(world, from, to, native, before.leases[id], after.leases[id])
    {
      ReturnedMatched(native, before, order, probes, now, world, from, to, id);
    }
    forall id | id in before.leases && id !in after.leases
      ensures before.leases[id] in after.pruned && !Survives(before, id, probes)
    {
      RemovedIsQueued(before, order, probes, now, id);
    }
  }

  lemma RunPlus(native: bool, steps: seq<Step>, step: Step)
    ensures Run(native, steps + [step]) == Apply(Run(native, steps), step)
  {
    assert (steps + [step])[..|steps|] == steps;
  }

  lemma ReturnedMatched(
    native: bool, r: Registry, order: seq<string>, probes: Probes, now: Time, world: World, from: nat, to: nat,
      id: string)
    requires r.native == native && Orders(order, r.leases.Keys) && Keyed(r.leases)
    requires SampledAll(world, from, to, r.leases, probes) && TokensAreUnique(world)
    requires id in Prune(r, order, probes, now).leases
    ensures id in r.leases
      && MatchedDuring(world, from, to, native, r.leases[id], Prune(r, order, probes, now).leases[id])
  {
    hide Prune, Sampled, SampledAll, BornAt, StartedAt, Sighted, TokensAreUnique, Orders;
    PruneMeaning(r, order, probes, now);
    if native {
      SurvivorMatched(world, from, to, r, order, probes, now, id);
    } else {
      SurvivorMatchedLegacy(world, from, to, r, order, probes, now, id);
    }
  }

  lemma RemovedIsQueued(r: Registry, order: seq<string>, probes: Probes, now: Time, id: string)
    requires Orders(order, r.leases.Keys) && Keyed(r.leases)
    requires id in r.leases && id !in Prune(r, order, probes, now).leases
    ensures r.leases[id] in Prune(r, order, probes, now).pruned && !Survives(r, id, probes)
  {
    hide Prune, Alive, Refreshed;
    PruneMeaning(r, order, probes, now);
    assert r.leases[id] in Dead(r, probes);
    assert r.leases[id] in multiset(Prune(r, order, probes, now).pruned);
  }

  // ---------------------------------------------------------------- listing by id

  predicate Less(a: string, b: string) {
    b != "" && (a == "" || a[0] < b[0] || (a[0] == b[0] && Less(a[1..], b[1..])))
  }

  lemma {:induction false} LessIsTotal(a: string, b: string)
    requires a != b
    ensures Less(a, b) || Less(b, a)
  {
    if a != "" && b != "" && a[0] == b[0] {
      assert a == [a[0]] + a[1..] && b == [b[0]] + b[1..];
      LessIsTotal(a[1..], b[1..]);
    }
  }

  lemma {:induction false} LessIsTransitive(a: string, b: string, c: string)
    requires Less(a, b) && Less(b, c)
    ensures Less(a, c)
  {
    if a != "" && a[0] == b[0] == c[0] {
      LessIsTransitive(a[1..], b[1..], c[1..]);
    }
  }

  ghost predicate Sorted(leases: seq<Lease>) {
    forall i, j | 0 <= i < j < |leases| :: Less(leases[i].id, leases[j].id)
  }

  function Inserted(leases: seq<Lease>, lease: Lease): seq<Lease> {
    if leases == [] || Less(lease.id, leases[0].id) then [lease] + leases
    else [leases[0]] + Inserted(leases[1..], lease)
  }

  lemma {:induction false} InsertedMembers(leases: seq<Lease>, lease: Lease)
    ensures forall x :: x in Inserted(leases, lease) <==> x == lease || x in leases
  {
    if leases != [] && !Less(lease.id, leases[0].id) {
      InsertedMembers(leases[1..], lease);
      assert leases == [leases[0]] + leases[1..];
    }
  }

  lemma {:induction false} InsertedSorted(leases: seq<Lease>, lease: Lease)
    requires Sorted(leases) && forall x | x in leases :: x.id != lease.id
    ensures Sorted(Inserted(leases, lease))
  {
    if leases == [] {
    } else if Less(lease.id, leases[0].id) {
      forall j | 0 < j < |leases| ensures Less(lease.id, leases[j].id) {
        LessIsTransitive(lease.id, leases[0].id, leases[j].id);
      }
    } else {
      var rest := Inserted(leases[1..], lease);
      InsertedSorted(leases[1..], lease);
      InsertedMembers(leases[1..], lease);
      LessIsTotal(lease.id, leases[0].id);
      forall j | 0 <= j < |rest| ensures Less(leases[0].id, rest[j].id) {
        assert rest[j] in rest;
      }
    }
  }

  method SortById(leases: seq<Lease>) returns (sorted: seq<Lease>)
    requires forall i, j | 0 <= i < j < |leases| :: leases[i].id != leases[j].id
    ensures Sorted(sorted) && forall lease :: lease in sorted <==> lease in leases
  {
    sorted := [];
    for i := 0 to |leases|
      invariant Sorted(sorted) && forall lease :: lease in sorted <==> lease in leases[..i]
    {
      InsertedMembers(sorted, leases[i]);
      InsertedSorted(sorted, leases[i]);
      assert leases[..i + 1] == leases[..i] + [leases[i]];
      sorted := Inserted(sorted, leases[i]);
    }
    assert leases[..|leases|] == leases;
  }

  predicate Wanted(lease: Lease, generation: nat) {
    generation == 0 || lease.generation == generation
  }

  // ---------------------------------------------------------------- the registry object

  class LeaseTable {
    var leases: map<string, Lease>
    var pruned: seq<Lease>
    const native: bool

    ghost function View(): Registry
      reads this
    {
      Registry(leases, pruned, native)
    }

    constructor (native: bool)
      ensures View() == Registry(map[], [], native)
    {
      leases, pruned := map[], [];
      this.native := native;
    }

    method RegisterLease(lease: Lease, probe: Probe, now: Time) returns (ok: bool)
      modifies this
      ensures (View(), ok) == Register(old(View()), lease, probe, now)
    {
      if lease.id == "" || lease.pid <= 0 || lease.generation == 0 {
        return false;
      }
      var identity := Identify(native, probe);
      if identity.None? {
        return false;
      }
      var known := lease;
      if known.createdAt == ZERO_TIME {
        known := known.(createdAt := now);
      }
      known := known.(processStart := identity.value.0, birth := identity.value.1, lastSeen := now);
      leases := leases[lease.id := known];
      ok := true;
    }

    method BindLease(id: string, pid: int, probe: Probe, now: Time) returns (ok: bool)
      modifies this
      ensures (View(), ok) == Bind(old(View()), id, pid, probe, now)
    {
      var identity := Identify(native, probe);
      if identity.None? || id !in leases {
        return false;
      }
      leases := leases[id := leases[id].(pid := pid, processStart := identity.value.0, birth := identity.value.1,
        lastSeen := now)];
      ok := true;
    }

    method ReleaseLease(id: string)
      modifies this`leases
      ensures View() == Release(old(View()), id)
    {
      leases := leases - {id};
    }

    method DrainPruned() returns (removed: seq<Lease>)
      modifies this`pruned
      ensures (View(), removed) == Drain(old(View()))
    {
      removed := pruned;
      pruned := [];
    }

    /** Check every lease, in whatever order the table yields them. */
    method PruneLocked(probes: Probes, now: Time) returns (changed: bool, ghost order: seq<string>)
      modifies this
      ensures Orders(order, old(leases).Keys)
      ensures View() == Prune(old(View()), order, probes, now)
      ensures changed <==> exists id :: id in old(leases) && !Survives(old(View()), id, probes)
    {
      changed, order := false, [];
      var todo := leases.Keys;
      while todo != {}
        invariant todo <= old(leases).Keys && Distinct(order)
        invariant forall id :: id in order <==> id in old(leases) && id !in todo
        invariant forall id | id in todo :: id in leases && leases[id] == old(leases)[id]
        invariant View() == Prune(old(View()), order, probes, now)
        invariant changed <==> exists id :: id in old(leases) && id !in todo && !Survives(old(View()), id, probes)
        decreases todo
      {
        var id :| id in todo;
        todo := todo - {id};
        assert (order + [id])[..|order|] == order;
        order := order + [id];
        if Alive(native, leases[id], ProbeOf(probes, id)) {
          leases := leases[id := Refreshed(native, leases[id], ProbeOf(probes, id), now)];
        } else {
          pruned := pruned + [leases[id]];
          leases := leases - {id};
          changed := true;
        }
      }
    }

    /** The living leases of a generation, or of all, by id. */
    method Active(generation: nat, probes: Probes, now: Time) returns (active: seq<Lease>, ghost order: seq<string>)
      requires Keyed(leases)
      modifies this
      ensures Orders(order, old(leases).Keys)
      ensures View() == Prune(old(View()), order, probes, now) && Keyed(leases)
      ensures Sorted(active)
      ensures forall lease ::
        lease in active <==> lease.id in leases && leases[lease.id] == lease && Wanted(lease, generation)
    {
      hide Prune, Check, Refreshed, Survives, Alive, Identify;
      var changed;
      changed, order := PruneLocked(probes, now);
      PruneMeaning(old(View()), order, probes, now);
      var found: seq<Lease> := [];
      var todo := leases.Keys;
      while todo != {}
        invariant todo <= leases.Keys && View() == Prune(old(View()), order, probes, now)
        invariant forall i, j | 0 <= i < j < |found| :: found[i].id != found[j].id
        invariant forall lease :: lease in found <==>
          lease.id in leases && lease.id !in todo && leases[lease.id] == lease && Wanted(lease, generation)
        decreases todo
      {
        var id :| id in todo;
        todo := todo - {id};
        if generation == 0 || leases[id].generation == generation {
          found := found + [leases[id]];
        }
      }
      active := SortById(found);
    }

    method Snapshot(probes: Probes, now: Time) returns (snapshot: map<string, Lease>, ghost order: seq<string>)
      modifies this
      ensures Orders(order, old(leases).Keys)
      ensures View() == Prune(old(View()), order, probes, now)
      ensures snapshot == leases
    {
      var changed;
      changed, order := PruneLocked(probes, now);
      snapshot := leases;
    }

    method Adopt(snapshot: map<string, Lease>)
      modifies this`leases
      ensures leases == Adopted(old(leases), snapshot)
    {
      var todo := snapshot.Keys;
      while todo != {}
        invariant todo <= snapshot.Keys
        invariant forall id | id in snapshot && id !in todo && Adoptable(id, snapshot[id]) ::
          id in leases && leases[id] == Named(id, snapshot[id])
        invariant forall id | !(id in snapshot && id !in todo && Adoptable(id, snapshot[id])) ::
          (id in leases <==> id in old(leases)) && (id in leases ==> leases[id] == old(leases)[id])
        decreases todo
      {
        var id :| id in todo;
        todo := todo - {id};
        var lease := snapshot[id];
        if lease.id == "" {
          lease := lease.(id := id);
        }
        if lease.id == id && lease.pid > 0 && lease.generation > 0 {
          leases := leases[id := lease];
        }
      }
    }

    /** Take over the leases of a snapshot, then check them all. */
    method Restore(snapshot: map<string, Lease>, probes: Probes, now: Time) returns (ghost order: seq<string>)
      modifies this
      ensures Orders(order, Adopted(old(leases), snapshot).Keys)
      ensures View() == Prune(Restored(old(View()), snapshot), order, probes, now)
    {
      Adopt(snapshot);
      var changed;
      changed, order := PruneLocked(probes, now);
    }
  }
}
