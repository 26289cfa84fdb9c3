/**
 Leases of living processes are kept.

 A check may only remove a lease whose process is gone: as long as the process stays in the
 process table and can be read, its lease is registered, survives every check and is listed.
 */
module LeaseLiveness {
  import opened Common
  import opened LeaseRegistry

  // ---------------------------------------------------------------- processes that can be read

  function BirthRead(native: bool, table: map<int, Process>, pid: int): Option<string> {
    if native && pid in table then Some(table[pid].birth) else None
  }

  function StartRead(table: map<int, Process>, pid: int): Option<int> {
    if pid in table then Some(table[pid].started) else None
  }

  /** The probe read the process id in order, between two ticks, and no reading failed. */
  ghost predicate Reliable(world: World, native: bool, pid: int, from: nat, to: nat, probe: Probe) {
    exists a: nat, b: nat, c: nat ::
      && from <= a <= b <= c <= to
      && probe == Probe(BirthRead(native, world(a), pid), StartRead(world(b), pid), BirthRead(native, world(c), pid))
  }

  /** The process was there all the time between two ticks. */
  ghost predicate Steady(world: World, native: bool, pid: int, from: nat, to: nat, p: Process) {
    && (forall t: nat | from <= t <= to :: pid in world(t) && world(t)[pid] == p)
    && (native ==> p.birth != "")
  }

  /** The lease records this process: by its token if it has one, by its start time otherwise. */
  predicate Records(native: bool, lease: Lease, p: Process) {
    if lease.birth != "" then native && lease.birth == p.birth else lease.processStart == p.started
  }

  /** What a probe of a steady process tells. */
  predicate Tells(native: bool, probe: Probe, p: Process) {
    probe == Probe(if native then Some(p.birth) else None, Some(p.started), if native then Some(p.birth) else None)
  }

  lemma SteadyTells(world: World, native: bool, pid: int, from: nat, to: nat, p: Process, probe: Probe)
    requires Reliable(world, native, pid, from, to, probe) && Steady(world, native, pid, from, to, p)
    ensures Tells(native, probe, p)
  {
  }

  // ---------------------------------------------------------------- the check, exactly

  /** What a survivor needs: the first reading shows its token; or, if it has none, its start
      time was read between two readings of one token. */
  predicate Passes(native: bool, lease: Lease, probe: Probe) {
    if lease.birth != "" then native && probe.first == Some(lease.birth)
    else
      && probe.legacy == Some(lease.processStart)
      && (native ==> probe.first == probe.second && probe.first !in {None, Some("")})
  }

  /** A check keeps exactly the leases that pass, each with the token read and the time of the
      check and otherwise as it was, and queues the others as they were. */
  lemma CheckKeepsIff(r: Registry, order: seq<string>, probes: Probes, now: Time, id: string)
    requires Orders(order, r.leases.Keys) && Keyed(r.leases) && id in r.leases
    ensures var after := Prune(r, order, probes, now);
            var probe := ProbeOf(probes, id);
            if Passes(r.native, r.leases[id], probe) then
              && id in after.leases
              && after.leases[id] == r.leases[id].(
                   birth := if r.native then probe.first.value else "", lastSeen := now)
            else id !in after.leases && r.leases[id] in after.pruned
  {
    hide Prune, Orders;
    PruneMeaning(r, order, probes, now);
    if !Survives(r, id, probes) {
      RemovedIsQueued(r, order, probes, now, id);
    }
  }

  /** The lease of a steady process that can be read survives a check. */
  lemma SteadySurvives(world: World, from: nat, to: nat, r: Registry, order: seq<string>, probes: Probes, now: Time,
      id: string, p: Process)
    requires Orders(order, r.leases.Keys) && Keyed(r.leases) && id in r.leases
    requires Reliable(world, r.native, r.leases[id].pid, from, to, ProbeOf(probes, id))
    requires Steady(world, r.native, r.leases[id].pid, from, to, p) && Records(r.native, r.leases[id], p)
    ensures var after := Prune(r, order, probes, now).leases;
            && id in after
            && after[id] == r.leases[id].(birth := if r.native then p.birth else "", lastSeen := now)
  {
    hide Prune, Orders, Reliable, Steady;
    SteadyTells(world, r.native, r.leases[id].pid, from, to, p, ProbeOf(probes, id));
    SteadyHasToken(world, r.native, r.leases[id].pid, from, to, p);
    CheckKeepsIff(r, order, probes, now, id);
  }

  lemma SteadyHasToken(world: World, native: bool, pid: int, from: nat, to: nat, p: Process)
    requires Steady(world, native, pid, from, to, p)
    ensures native ==> p.birth != ""
  {
  }

  /** A lease that records no process its id had during the check is removed and queued. */
  lemma GoneIsRemoved(world: World, from: nat, to: nat, r: Registry, order: seq<string>, probes: Probes, now: Time,
      id: string)
    requires Orders(order, r.leases.Keys) && Keyed(r.leases) && id in r.leases
    requires Reliable(world, r.native, r.leases[id].pid, from, to, ProbeOf(probes, id))
    requires forall t: nat | from <= t <= to && r.leases[id].pid in world(t) ::
      !Records(r.native, r.leases[id], world(t)[r.leases[id].pid])
    ensures id !in Prune(r, order, probes, now).leases && r.leases[id] in Prune(r, order, probes, now).pruned
  {
    hide Prune, Orders;
    CheckKeepsIff(r, order, probes, now, id);
  }

  // ---------------------------------------------------------------- registering and binding

  /** The readings of one process: its start time, between two looks at one token. */
  predicate Consistent(native: bool, probe: Probe) {
    probe.legacy.Some? && (native ==> probe.first == probe.second && probe.first !in {None, Some("")})
  }

  /** A lease is registered exactly if it names itself, a process and a generation, and its process
      was read consistently; it is kept under its id with what was read, and others stay. */
  lemma RegisteredIff(r: Registry, lease: Lease, probe: Probe, now: Time)
    ensures var (r', ok) := Register(r, lease, probe, now);
            && (ok <==> lease.id != "" && lease.pid > 0 && lease.generation > 0 && Consistent(r.native, probe))
            && (!ok ==> r' == r)
            && (ok ==> r'.leases.Keys == r.leases.Keys + {lease.id} && r'.pruned == r.pruned
                       && r'.leases[lease.id] == Lease(
                            lease.id, lease.agent, lease.session, lease.pid, probe.legacy.value,
                            if r.native then probe.first.value else "", lease.generation,
                            if lease.createdAt == 0 then now else lease.createdAt, now))
            && forall id | id in r.leases && id != lease.id :: id in r'.leases && r'.leases[id] == r.leases[id]
  {
  }

  /** A lease is bound to a process exactly if the lease is known and the process was read
      consistently; only its process changes. */
  lemma BoundIff(r: Registry, id: string, pid: int, probe: Probe, now: Time)
    ensures var (r', ok) := Bind(r, id, pid, probe, now);
            && (ok <==> id in r.leases && Consistent(r.native, probe))
            && (!ok ==> r' == r)
            && (ok ==> r'.leases.Keys == r.leases.Keys && r'.pruned == r.pruned
                       && var was := r.leases[id];
                          r'.leases[id] == Lease(
                            was.id, was.agent, was.session, pid, probe.legacy.value,
                            if r.native then probe.first.value else "", was.generation, was.createdAt, now))
            && forall d | d in r.leases && d != id :: r'.leases[d] == r.leases[d]
  {
  }

  /** A steady process can be registered, and its lease records it. */
  lemma SteadyRegisters(world: World, from: nat, to: nat, r: Registry, lease: Lease, probe: Probe, now: Time,
      p: Process)
    requires lease.id != "" && lease.pid > 0 && lease.generation > 0
    requires Reliable(world, r.native, lease.pid, from, to, probe) && Steady(world, r.native, lease.pid, from, to, p)
    ensures var (r', ok) := Register(r, lease, probe, now);
            ok && lease.id in r'.leases && r'.leases[lease.id].pid == lease.pid
            && Records(r.native, r'.leases[lease.id], p)
  {
    hide Register, Reliable, Steady;
    SteadyTells(world, r.native, lease.pid, from, to, p, probe);
    SteadyHasToken(world, r.native, lease.pid, from, to, p);
    RegisteredIff(r, lease, probe, now);
  }

  // ---------------------------------------------------------------- over runs

  /** The step is not about this lease, and if it checks the leases it can read this process. */
  ghost predicate LeavesAlone(world: World, native: bool, pid: int, from: nat, to: nat, step: Step, id: string) {
    match step
    case RegisterStep(lease, _, _) => lease.id != id
    case BindStep(d, _, _, _) => d != id
    case ReleaseStep(d) => d != id
    case DrainStep => true
    case PruneStep(_, probes, _) => Reliable(world, native, pid, from, to, ProbeOf(probes, id))
    case RestoreStep(snapshot, _, probes, _) =>
      id !in snapshot && Reliable(world, native, pid, from, to, ProbeOf(probes, id))
  }

  lemma StepKeepsSteady(s: System, native: bool, step: Step, world: World, from: nat, to: nat, id: string, p: Process)
    requires Inv(s, native) && id in s.registry.leases && Records(native, s.registry.leases[id], p)
    requires Steady(world, native, s.registry.leases[id].pid, from, to, p)
    requires LeavesAlone(world, native, s.registry.leases[id].pid, from, to, step, id)
    ensures var after := Apply(s, step).registry.leases;
            && id in after && Records(native, after[id], p)
            && after[id] == s.registry.leases[id].(birth := after[id].birth, lastSeen := after[id].lastSeen)
  {
    hide Prune, Orders, Reliable, Steady;
    SteadyHasToken(world, native, s.registry.leases[id].pid, from, to, p);
    match step
    case PruneStep(order, probes, now) =>
      if Orders(order, s.registry.leases.Keys) {
        SteadySurvives(world, from, to, s.registry, order, probes, now, id, p);
      }
    case RestoreStep(snapshot, order, probes, now) =>
      var r := Restored(s.registry, snapshot);
      if Orders(order, r.leases.Keys) {
        SteadySurvives(world, from, to, r, order, probes, now, id, p);
      }
    case _ =>
  }

  /** As long as its process stays in the process table and can be read, a lease that records it
      stays registered with its process, its session and its generation, whatever else happens,
      until it is itself registered again, bound, released or restored. */
  lemma {:induction false} SteadyLeaseStays(
    native: bool, steps: seq<Step>, more: seq<Step>, world: World, from: nat, to: nat, id: string, p: Process)
    requires id in Run(native, steps).registry.leases && Records(native, Run(native, steps).registry.leases[id], p)
    requires Steady(world, native, Run(native, steps).registry.leases[id].pid, from, to, p)
    requires forall i | 0 <= i < |more| ::
      LeavesAlone(world, native, Run(native, steps).registry.leases[id].pid, from, to, more[i], id)
    ensures var before, after := Run(native, steps).registry.leases, Run(native, steps + more).registry.leases;
            && id in after && Records(native, after[id], p)
            && after[id] == before[id].(birth := after[id].birth, lastSeen := after[id].lastSeen)
  {
    hide Apply, Steady, LeavesAlone, Records;
    if more == [] {
      assert steps + more == steps;
    } else {
      var n := |more| - 1;
      SteadyLeaseStays(native, steps, more[..n], world, from, to, id, p);
      assert steps + more == (steps + more[..n]) + [more[n]];
      RunPlus(native, steps + more[..n], more[n]);
      RunInv(native, steps + more[..n]);
      StepKeepsSteady(Run(native, steps + more[..n]), native, more[n], world, from, to, id, p);
    }
  }

  /** What a snapshot of another registry adds: each lease under its own id, or under none, that
      names a process and a generation. */
  lemma AdoptedMeans(leases: map<string, Lease>, snapshot: map<string, Lease>, id: string)
    ensures var good := id in snapshot && snapshot[id].id in {"", id} && snapshot[id].pid > 0
                        && snapshot[id].generation > 0;
            && (id in Adopted(leases, snapshot) <==> good || id in leases)
            && (good ==> Adopted(leases, snapshot)[id] == snapshot[id].(id := id))
            && (!good && id in leases ==> Adopted(leases, snapshot)[id] == leases[id])
  {
  }
}
