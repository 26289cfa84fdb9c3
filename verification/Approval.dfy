module Approval {
  // The approval broker: one pending request, five parties that may settle it.
  //
  // A hook connection registers a request and waits.  A client's answer, the draining of a
  // session and the shutdown of the server take requests out of the table, send the answer
  // down the request's one-slot channel and report the request finished; the handler itself
  // may take its request back on a timeout or when the hook answers or goes away.  Taking
  // the request out of the table decides the race.
  //
  // A step is one locked region, one channel operation or one report.  A run is any sequence
  // of steps; a step that is not enabled changes nothing.

  import opened Common

  type RequestId = nat
  type TakerId = nat
  type SessionId = string

  datatype Reason = Approved | Denied | TimedOut | HookDisconnected | SessionDrained | ServerShutdown

  /** What a `Finished` report says: the user's decision, if there is one, and why. */
  datatype Verdict = Verdict(approved: Option<bool>, reason: Reason)

  datatype Finished = Finished(id: RequestId, session: SessionId, verdict: Verdict)

  /** The verdict of an answer, from a client or typed at the hook. */
  function Answered(allow: bool): Verdict {
    Verdict(Some(allow), if allow then Approved else Denied)
  }

  // ---------------------------------------------------------------- the table

  /** What the server's mutexes protect. */
  datatype Table = Table(pending: map<RequestId, SessionId>, closed: bool)

  function Register(table: Table, id: RequestId, session: SessionId): (Table, bool) {
    if table.closed then (table, false) else (table.(pending := table.pending[id := session]), true)
  }

  function Take(table: Table, id: RequestId): (Table, bool) {
    if id in table.pending then (table.(pending := table.pending - {id}), true) else (table, false)
  }

  /** The requests of a session; the empty session means all of them. */
  function Matching(table: Table, session: SessionId): set<RequestId> {
    set id | id in table.pending && (session == "" || table.pending[id] == session)
  }

  /** A list of exactly these requests, in whatever order the table yields them. */
  ghost predicate Lists(ids: seq<RequestId>, wanted: set<RequestId>) {
    Distinct(ids) && forall id :: id in ids <==> id in wanted
  }

  function TakeMatching(table: Table, session: SessionId): Table {
    table.(pending := table.pending - Matching(table, session))
  }

  // ---------------------------------------------------------------- the system

  datatype Handler =
    | Waiting
    | MustReceive
    | MustNotify(verdict: Verdict)
    | Done

  /** Who has the request: history only, no party reads it. */
  datatype Stage =
    | InTable
    | Taken(taker: TakerId, sent: bool)
    | Won
    | Settled(byTaker: bool)

  datatype Request = Request(
    session: SessionId,
    channel: seq<bool>,
    handler: Handler,
    decision: Option<bool>,
    stage: Stage,
    verdict: Verdict)

  /** A party working through the requests it took: answer the first, report it, go on. */
  datatype Taker = Taker(verdict: Verdict, todo: seq<RequestId>, sent: bool)

  datatype System = System(
    table: Table,
    requests: seq<Request>,
    takers: seq<Taker>,
    log: seq<Finished>,
    drained: bool)

  datatype Step =
    | RegisterStep(session: SessionId)
    | CloseFlag
    | ResolveTake(id: RequestId, allow: bool)
    | DrainTake(session: SessionId, ids: seq<RequestId>)
    | CloseTake(ids: seq<RequestId>)
    | Send(taker: TakerId)
    | Report(taker: TakerId)
    | Receive(id: RequestId)
    | Timeout(id: RequestId)
    | HookSpeaks(id: RequestId, local: Option<bool>)
    | HandlerReport(id: RequestId)

  const INITIAL := System(Table(map[], false), [], [], [], false)
  const OPEN := Verdict(None, Denied)

  function Allows(v: Verdict): bool {
    v.reason.Approved?
  }

  /** The verdict of a hook that answered locally, or went away. */
  function HookVerdict(local: Option<bool>): Verdict {
    if local.Some? then Answered(local.value) else Verdict(None, HookDisconnected)
  }

  ghost predicate Enabled(s: System, step: Step) {
    match step
    case RegisterStep(session) => session != ""
    case CloseFlag => true
    case ResolveTake(id, _) => id in s.table.pending
    case DrainTake(session, ids) => Lists(ids, Matching(s.table, session))
    case CloseTake(ids) => s.table.closed && Lists(ids, Matching(s.table, ""))
    case Send(t) => t < |s.takers| && s.takers[t].todo != [] && !s.takers[t].sent && s.takers[t].todo[0] < |s.requests|
    case Report(t) => t < |s.takers| && s.takers[t].todo != [] && s.takers[t].sent && s.takers[t].todo[0] < |s.requests|
    case Receive(id) =>
      && id < |s.requests|
      && (s.requests[id].handler.Waiting? || s.requests[id].handler.MustReceive?)
      && s.requests[id].channel != []
    case Timeout(id) => id < |s.requests| && s.requests[id].handler.Waiting?
    case HookSpeaks(id, _) => id < |s.requests| && s.requests[id].handler.Waiting?
    case HandlerReport(id) => id < |s.requests| && s.requests[id].handler.MustNotify?
  }

  /** Mark the requests a new taker has taken. */
  function MarkTaken(requests: seq<Request>, ids: seq<RequestId>, t: TakerId, verdict: Verdict): (r: seq<Request>)
    ensures |r| == |requests|
    ensures forall i | 0 <= i < |requests| ::
      r[i] == if i in ids then requests[i].(stage := Taken(t, false), verdict := verdict) else requests[i]
  {
    seq(|requests|, i requires 0 <= i < |requests| =>
      if i in ids then requests[i].(stage := Taken(t, false), verdict := verdict) else requests[i])
  }

  function AddTaker(s: System, table: Table, ids: seq<RequestId>, verdict: Verdict): System {
    s.(table := table,
       requests := MarkTaken(s.requests, ids, |s.takers|, verdict),
       takers := s.takers + [Taker(verdict, ids, false)])
  }

  /** The handler tries to take its own request back. */
  function HandlerTakes(s: System, id: RequestId, verdict: Verdict): System
    requires id < |s.requests|
  {
    var (table, won) := Take(s.table, id);
    s.(table := table,
       requests := s.requests[id :=
         if won then s.requests[id].(handler := MustNotify(verdict), stage := Won, verdict := verdict)
         else s.requests[id].(handler := MustReceive)])
  }

  ghost function Apply(s: System, step: Step): System {
    if !Enabled(s, step) then s else
    match step
    case RegisterStep(session) =>
      var (table, registered) := Register(s.table, |s.requests|, session);
      if registered then
        s.(table := table, requests := s.requests + [Request(session, [], Waiting, None, InTable, OPEN)])
      else s
    case CloseFlag => s.(table := s.table.(closed := true))
    case ResolveTake(id, allow) => AddTaker(s, Take(s.table, id).0, [id], Answered(allow))
    case DrainTake(session, ids) => AddTaker(s, TakeMatching(s.table, session), ids, Verdict(None, SessionDrained))
    case CloseTake(ids) => AddTaker(s, TakeMatching(s.table, ""), ids, Verdict(None, ServerShutdown)).(drained := true)
    case Send(t) =>
      var id := s.takers[t].todo[0];
      var r := s.requests[id];
      s.(takers := s.takers[t := s.takers[t].(sent := true)],
         requests := s.requests[id := r.(channel := r.channel + [Allows(s.takers[t].verdict)],
           stage := Taken(t, true))])
    case Report(t) =>
      var id := s.takers[t].todo[0];
      s.(takers := s.takers[t := s.takers[t].(todo := s.takers[t].todo[1..], sent := false)],
         requests := s.requests[id := s.requests[id].(stage := Settled(true))],
         log := s.log + [Finished(id, s.requests[id].session, s.takers[t].verdict)])
    case Receive(id) =>
      var r := s.requests[id];
      s.(requests := s.requests[id := r.(channel := r.channel[1..], handler := Done, decision := Some(r.channel[0]))])
    case Timeout(id) => HandlerTakes(s, id, Verdict(None, TimedOut))
    case HookSpeaks(id, local) => HandlerTakes(s, id, HookVerdict(local))
    case HandlerReport(id) =>
      var r := s.requests[id];
      s.(requests := s.requests[id := r.(handler := Done, decision := Some(Allows(r.handler.verdict)),
        stage := Settled(false))],
         log := s.log + [Finished(id, r.session, r.handler.verdict)])
  }

  // ---------------------------------------------------------------- the invariant

  function ReportsOf(log: seq<Finished>, id: RequestId): seq<Finished> {
    if log == [] then []
    else
      var n := |log| - 1;
      ReportsOf(log[..n], id) + (if log[n].id == id then [log[n]] else [])
  }

  /** The answer is in the channel and not yet read, or read and returned to the hook. */
  predicate AnswerIsUnderWay(r: Request) {
    || (r.channel == [Allows(r.verdict)] && (r.handler.Waiting? || r.handler.MustReceive?) && r.decision == None)
    || (r.channel == [] && r.handler.Done? && r.decision == Some(Allows(r.verdict)))
  }

  predicate RequestInv(r: Request) {
    match r.stage
    case InTable => r.channel == [] && r.handler.Waiting? && r.decision == None
    case Taken(_, sent) =>
      if sent then AnswerIsUnderWay(r)
      else r.channel == [] && (r.handler.Waiting? || r.handler.MustReceive?) && r.decision == None
    case Won => r.channel == [] && r.handler == MustNotify(r.verdict) && r.decision == None
    case Settled(byTaker) =>
      if byTaker then AnswerIsUnderWay(r)
      else r.channel == [] && r.handler.Done? && r.decision == Some(Allows(r.verdict))
  }

  /** A taker holds the requests it has yet to report, each once, and only their first is answered. */
  ghost predicate TakerInv(s: System, t: TakerId)
    requires t < |s.takers|
  {
    var taker := s.takers[t];
    && Distinct(taker.todo)
    && (taker.todo == [] ==> !taker.sent)
    && forall i | 0 <= i < |taker.todo| ::
         && taker.todo[i] < |s.requests|
         && s.requests[taker.todo[i]].stage == Taken(t, i == 0 && taker.sent)
         && s.requests[taker.todo[i]].verdict == taker.verdict
  }

  ghost predicate PlaceInv(s: System, id: RequestId)
    requires id < |s.requests|
  {
    var r := s.requests[id];
    && RequestInv(r)
    && (r.stage.InTable? <==> id in s.table.pending)
    && (id in s.table.pending ==> s.table.pending[id] == r.session)
    && (r.stage.Taken? ==> r.stage.taker < |s.takers| && id in s.takers[r.stage.taker].todo)
    && ReportsOf(s.log, id) == if r.stage.Settled? then [Finished(id, r.session, r.verdict)] else []
  }

  ghost predicate Inv(s: System) {
    && (forall id | id in s.table.pending :: id < |s.requests|)
    && (forall id | 0 <= id < |s.requests| :: PlaceInv(s, id))
    && (forall t | 0 <= t < |s.takers| :: TakerInv(s, t))
    && (s.drained ==> s.table.closed && s.table.pending == map[])
    && (forall i | 0 <= i < |s.log| :: s.log[i].id < |s.requests|)
  }

  // ---------------------------------------------------------------- every step keeps it

  lemma ReportAdded(log: seq<Finished>, f: Finished, id: RequestId)
    ensures ReportsOf(log + [f], id) == ReportsOf(log, id) + if f.id == id then [f] else []
  {
    assert (log + [f])[..|log|] == log;
  }

  lemma {:induction false} NoReportsYet(log: seq<Finished>, id: RequestId)
    requires forall i | 0 <= i < |log| :: log[i].id != id
    ensures ReportsOf(log, id) == []
  {
    if log != [] {
      NoReportsYet(log[..|log| - 1], id);
    }
  }

  lemma RegisterKeepsInv(s: System, session: SessionId)
    requires Inv(s)
    ensures Inv(Apply(s, RegisterStep(session)))
  {
    var s' := Apply(s, RegisterStep(session));
    if s' != s {
      forall id | 0 <= id < |s'.requests| ensures PlaceInv(s', id) {
        if id < |s.requests| {
          assert PlaceInv(s, id);
        } else {
          NoReportsYet(s.log, id);
        }
      }
      forall t | 0 <= t < |s'.takers| ensures TakerInv(s', t) {
        assert TakerInv(s, t);
      }
    }
  }

  /** A party takes requests out of the table all at once. */
  lemma AddTakerKeepsInv(s: System, ids: seq<RequestId>, verdict: Verdict, table: Table)
    requires Inv(s) && Distinct(ids) && forall id | id in ids :: id in s.table.pending
    requires table.closed == s.table.closed && table.pending == s.table.pending - (set id | id in ids)
    ensures Inv(AddTaker(s, table, ids, verdict))
  {
    var s' := AddTaker(s, table, ids, verdict);
    forall id | 0 <= id < |s'.requests| ensures PlaceInv(s', id) {
      assert PlaceInv(s, id);
      if id !in ids && s.requests[id].stage.Taken? {
        assert s'.takers[s.requests[id].stage.taker] == s.takers[s.requests[id].stage.taker];
      }
    }
    forall t | 0 <= t < |s'.takers| ensures TakerInv(s', t) {
      if t < |s.takers| {
        assert TakerInv(s, t);
        forall i | 0 <= i < |s.takers[t].todo|
          ensures s'.requests[s.takers[t].todo[i]] == s.requests[s.takers[t].todo[i]] {
          assert PlaceInv(s, s.takers[t].todo[i]);
        }
      } else {
        forall i | 0 <= i < |ids| ensures ids[i] < |s.requests| {
          assert ids[i] in ids;
        }
      }
    }
  }

  /** A change of one request that leaves its place, and the takers, alone. */
  lemma RequestChanged(s: System, id: RequestId, r: Request)
    requires Inv(s) && id < |s.requests|
    requires r.stage == s.requests[id].stage && r.verdict == s.requests[id].verdict
      && r.session == s.requests[id].session
    requires RequestInv(r)
    ensures Inv(s.(requests := s.requests[id := r]))
  {
    var s' := s.(requests := s.requests[id := r]);
    forall d | 0 <= d < |s'.requests| ensures PlaceInv(s', d) {
      assert PlaceInv(s, d);
    }
    forall t | 0 <= t < |s'.takers| ensures TakerInv(s', t) {
      assert TakerInv(s, t);
    }
  }

  lemma SendKeepsInv(s: System, t: TakerId)
    requires Inv(s) && Enabled(s, Send(t))
    ensures Inv(Apply(s, Send(t)))
  {
    var s' := Apply(s, Send(t));
    var id := s.takers[t].todo[0];
    assert TakerInv(s, t);
    forall d | 0 <= d < |s'.requests| ensures PlaceInv(s', d) {
      assert PlaceInv(s, d);
    }
    forall u | 0 <= u < |s'.takers| ensures TakerInv(s', u) {
      assert TakerInv(s, u);
    }
  }

  lemma ReportKeepsInv(s: System, t: TakerId)
    requires Inv(s) && Enabled(s, Report(t))
    ensures Inv(Apply(s, Report(t)))
  {
    hide ReportsOf, Allows;
    var s' := Apply(s, Report(t));
    var todo := s.takers[t].todo;
    var id := todo[0];
    assert TakerInv(s, t);
    forall d | 0 <= d < |s'.requests| ensures PlaceInv(s', d) {
      assert PlaceInv(s, d);
      ReportAdded(s.log, Finished(id, s.requests[id].session, s.takers[t].verdict), d);
      if d != id && d in todo {
        var i :| 0 <= i < |todo| && todo[i] == d;
        assert todo[1..][i - 1] == d;
      }
    }
    forall u | 0 <= u < |s'.takers| ensures TakerInv(s', u) {
      assert TakerInv(s, u);
      if u == t {
        forall i | 0 <= i < |todo[1..]|
          ensures todo[1..][i] != id && s'.requests[todo[1..][i]].stage == Taken(t, false) {
          assert todo[1..][i] == todo[i + 1];
        }
      }
    }
  }

  /** The handler takes its request, or learns that it is too late. */
  lemma HandlerTakesKeepsInv(s: System, id: RequestId, verdict: Verdict)
    requires Inv(s) && id < |s.requests| && s.requests[id].handler.Waiting?
    ensures Inv(HandlerTakes(s, id, verdict))
  {
    var s' := HandlerTakes(s, id, verdict);
    assert PlaceInv(s, id);
    if id in s.table.pending {
      forall d | 0 <= d < |s'.requests| ensures PlaceInv(s', d) {
        assert PlaceInv(s, d);
      }
      forall t | 0 <= t < |s'.takers| ensures TakerInv(s', t) {
        assert TakerInv(s, t);
      }
    } else {
      RequestChanged(s, id, s.requests[id].(handler := MustReceive));
    }
  }

  lemma HandlerReportKeepsInv(s: System, id: RequestId)
    requires Inv(s) && Enabled(s, HandlerReport(id))
    ensures Inv(Apply(s, HandlerReport(id)))
  {
    var s' := Apply(s, HandlerReport(id));
    assert PlaceInv(s, id);
    forall d | 0 <= d < |s'.requests| ensures PlaceInv(s', d) {
      assert PlaceInv(s, d);
      ReportAdded(s.log, Finished(id, s.requests[id].session, s.requests[id].handler.verdict), d);
    }
    forall t | 0 <= t < |s'.takers| ensures TakerInv(s', t) {
      assert TakerInv(s, t);
    }
  }

  lemma StepKeepsInv(s: System, step: Step)
    requires Inv(s)
    ensures Inv(Apply(s, step))
  {
    if Enabled(s, step) {
      match step
      case RegisterStep(session) => RegisterKeepsInv(s, session);
      case CloseFlag =>
        var s' := Apply(s, step);
        forall id | 0 <= id < |s'.requests| ensures PlaceInv(s', id) {
          assert PlaceInv(s, id);
        }
        forall t | 0 <= t < |s'.takers| ensures TakerInv(s', t) {
          assert TakerInv(s, t);
        }
      case ResolveTake(id, allow) =>
        assert (set d | d in [id]) == {id};
        AddTakerKeepsInv(s, [id], Answered(allow), Take(s.table, id).0);
      case DrainTake(session, ids) =>
        assert (set d | d in ids) == Matching(s.table, session);
        AddTakerKeepsInv(s, ids, Verdict(None, SessionDrained), TakeMatching(s.table, session));
      case CloseTake(ids) => CloseTakeKeepsInv(s, ids);
      case Send(t) => SendKeepsInv(s, t);
      case Report(t) => ReportKeepsInv(s, t);
      case Receive(id) =>
        assert PlaceInv(s, id);
        var r := s.requests[id];
        RequestChanged(s, id, r.(channel := r.channel[1..], handler := Done, decision := Some(r.channel[0])));
      case Timeout(id) => HandlerTakesKeepsInv(s, id, Verdict(None, TimedOut));
      case HookSpeaks(id, local) => HandlerTakesKeepsInv(s, id, HookVerdict(local));
      case HandlerReport(id) => HandlerReportKeepsInv(s, id);
    }
  }

  lemma CloseTakeKeepsInv(s: System, ids: seq<RequestId>)
    requires Inv(s) && Enabled(s, CloseTake(ids))
    ensures Inv(Apply(s, CloseTake(ids)))
  {
    assert (set d | d in ids) == Matching(s.table, "");
    var s1 := AddTaker(s, TakeMatching(s.table, ""), ids, Verdict(None, ServerShutdown));
    AddTakerKeepsInv(s, ids, Verdict(None, ServerShutdown), TakeMatching(s.table, ""));
    assert s1.table.pending == map[];
    var s' := s1.(drained := true);
    forall id | 0 <= id < |s'.requests| ensures PlaceInv(s', id) {
      assert PlaceInv(s1, id);
    }
    forall t | 0 <= t < |s'.takers| ensures TakerInv(s', t) {
      assert TakerInv(s1, t);
    }
  }

  // ---------------------------------------------------------------- runs

  ghost function RunFrom(s: System, steps: seq<Step>): (s': System)
    requires Inv(s)
    ensures Inv(s')
    decreases |steps|
  {
    if steps == [] then s else
      StepKeepsInv(s, steps[0]);
      RunFrom(Apply(s, steps[0]), steps[1..])
  }

  /** The state after any sequence of steps from the empty broker. */
  ghost function Run(steps: seq<Step>): (s: System)
    ensures Inv(s)
  {
    RunFrom(INITIAL, steps)
  }

  /** A request is reported finished at most once, under its own session; and what the hook
      is told is allow exactly when the report says approved. */
  lemma FinishedAtMostOnce(steps: seq<Step>, id: RequestId)
    requires id < |Run(steps).requests|
    ensures var s := Run(steps);
            var reports := ReportsOf(s.log, id);
            && |reports| <= 1
            && (|reports| == 1 ==> reports[0].session == s.requests[id].session)
            && (|reports| == 1 && s.requests[id].decision.Some? ==>
                  (s.requests[id].decision.value <==> reports[0].verdict.reason == Approved))
  {
    assert PlaceInv(Run(steps), id);
  }

  /** Nobody has anything left to do: every taker is through and every handler has returned. */
  ghost predicate Quiet(s: System) {
    && (forall t | 0 <= t < |s.takers| :: s.takers[t].todo == [])
    && (forall id | 0 <= id < |s.requests| :: s.requests[id].handler.Done?)
  }

  /** When the dust has settled every request that was ever registered has been reported
      exactly once, and its hook has the reported decision. */
  lemma FinishedExactlyOnce(steps: seq<Step>, id: RequestId)
    requires Quiet(Run(steps)) && id < |Run(steps).requests|
    ensures var s := Run(steps);
            var reports := ReportsOf(s.log, id);
            && |reports| == 1
            && s.requests[id].decision == Some(reports[0].verdict.reason == Approved)
  {
    assert PlaceInv(Run(steps), id);
  }

  // ---------------------------------------------------------------- every request is finished

  /** A step of a party that has work to do.  The hook need not speak, no client need answer,
      and neither a drain nor a shutdown need come. */
  predicate Finishing(step: Step) {
    step.Send? || step.Report? || step.Receive? || step.Timeout? || step.HandlerReport?
  }

  function TakerWork(taker: Taker): nat {
    if taker.todo == [] then 0 else 2 * |taker.todo| - if taker.sent then 1 else 0
  }

  function HandlerWork(r: Request): nat {
    if r.handler.Waiting? then 2 else if r.handler.Done? then 0 else 1
  }

  function TakersWork(takers: seq<Taker>): nat {
    if takers == [] then 0 else TakersWork(takers[..|takers| - 1]) + TakerWork(takers[|takers| - 1])
  }

  function HandlersWork(requests: seq<Request>): nat {
    if requests == [] then 0
    else HandlersWork(requests[..|requests| - 1]) + HandlerWork(requests[|requests| - 1])
  }

  /** How many steps the parties still have to take, at most. */
  function Work(s: System): nat {
    TakersWork(s.takers) + HandlersWork(s.requests)
  }

  lemma {:induction false} TakersWorkChanged(takers: seq<Taker>, t: TakerId, taker: Taker)
    requires t < |takers|
    ensures TakersWork(takers[t := taker]) == TakersWork(takers) - TakerWork(takers[t]) + TakerWork(taker)
  {
    var n := |takers| - 1;
    if t < n {
      TakersWorkChanged(takers[..n], t, taker);
      assert takers[t := taker][..n] == takers[..n][t := taker];
    } else {
      assert takers[t := taker][..n] == takers[..n];
    }
  }

  lemma {:induction false} HandlersWorkChanged(requests: seq<Request>, id: RequestId, r: Request)
    requires id < |requests|
    ensures HandlersWork(requests[id := r]) == HandlersWork(requests) - HandlerWork(requests[id]) + HandlerWork(r)
  {
    var n := |requests| - 1;
    if id < n {
      HandlersWorkChanged(requests[..n], id, r);
      assert requests[id := r][..n] == requests[..n][id := r];
    } else {
      assert requests[id := r][..n] == requests[..n];
    }
  }

  lemma TakerStepLowersWork(s: System, step: Step)
    requires Enabled(s, step) && (step.Send? || step.Report?)
    ensures Work(Apply(s, step)) < Work(s)
  {
    hide TakersWork, HandlersWork;
    var s', t := Apply(s, step), step.taker;
    var id := s.takers[t].todo[0];
    TakersWorkChanged(s.takers, t, s'.takers[t]);
    HandlersWorkChanged(s.requests, id, s'.requests[id]);
    assert s'.takers == s.takers[t := s'.takers[t]];
    assert s'.requests == s.requests[id := s'.requests[id]];
  }

  lemma HandlerStepLowersWork(s: System, step: Step)
    requires Enabled(s, step) && (step.Receive? || step.Timeout? || step.HookSpeaks? || step.HandlerReport?)
    ensures Work(Apply(s, step)) < Work(s)
  {
    hide TakersWork, HandlersWork;
    var s', id := Apply(s, step), step.id;
    HandlersWorkChanged(s.requests, id, s'.requests[id]);
    assert s'.requests == s.requests[id := s'.requests[id]];
  }

  /** Every step of a party, in whatever order the parties move, leaves less to do. */
  lemma StepsLowerWork(s: System, step: Step)
    requires Enabled(s, step) && (Finishing(step) || step.HookSpeaks?)
    ensures Work(Apply(s, step)) < Work(s)
    ensures |Apply(s, step).requests| == |s.requests|
  {
    if step.Send? || step.Report? {
      TakerStepLowersWork(s, step);
    } else {
      HandlerStepLowersWork(s, step);
    }
  }

  /** A party can move exactly as long as something is unfinished. */
  lemma NobodyIsStuck(steps: seq<Step>)
    ensures !Quiet(Run(steps)) <==> exists step :: Finishing(step) && Enabled(Run(steps), step)
  {
    var s := Run(steps);
    if !Quiet(s) {
      var step := NextStep(s);
    }
  }

  lemma NextStep(s: System) returns (step: Step)
    requires Inv(s) && !Quiet(s)
    ensures Finishing(step) && Enabled(s, step)
  {
    if t :| 0 <= t < |s.takers| && s.takers[t].todo != [] {
      assert TakerInv(s, t);
      step := if s.takers[t].sent then Report(t) else Send(t);
    } else {
      var id :| 0 <= id < |s.requests| && !s.requests[id].handler.Done?;
      assert PlaceInv(s, id);
      match s.requests[id].handler
      case Waiting => step := Timeout(id);
      case MustReceive => step := Receive(id);
      case MustNotify(_) => step := HandlerReport(id);
    }
  }

  /** Each of the steps is possible when its turn comes. */
  ghost predicate AllEnabled(s: System, steps: seq<Step>)
    requires Inv(s)
    decreases |steps|
  {
    steps == [] || (
      && Enabled(s, steps[0])
      && (StepKeepsInv(s, steps[0]); AllEnabled(Apply(s, steps[0]), steps[1..])))
  }

  /** The parties cannot move for ever: whatever they do, in whatever order, they are through
      after at most `Work` steps. */
  lemma {:induction false} FinishingEnds(s: System, steps: seq<Step>)
    requires Inv(s) && AllEnabled(s, steps)
    requires forall i | 0 <= i < |steps| :: Finishing(steps[i]) || steps[i].HookSpeaks?
    ensures |steps| + Work(RunFrom(s, steps)) <= Work(s)
    decreases |steps|
  {
    hide Work, Enabled;
    if steps != [] {
      StepKeepsInv(s, steps[0]);
      StepsLowerWork(s, steps[0]);
      FinishingEnds(Apply(s, steps[0]), steps[1..]);
    }
  }

  lemma {:induction false} SettlesFrom(s: System) returns (more: seq<Step>)
    requires Inv(s)
    ensures forall i | 0 <= i < |more| :: Finishing(more[i])
    ensures AllEnabled(s, more)
    ensures Quiet(RunFrom(s, more)) && |RunFrom(s, more).requests| == |s.requests|
    decreases Work(s)
  {
    hide Work, Enabled, Quiet;
    if Quiet(s) {
      more := [];
    } else {
      var step := NextStep(s);
      StepKeepsInv(s, step);
      StepsLowerWork(s, step);
      var rest := SettlesFrom(Apply(s, step));
      more := [step] + rest;
      assert more[1..] == rest;
    }
  }

  lemma {:induction false} RunTogether(s: System, steps: seq<Step>, more: seq<Step>)
    requires Inv(s)
    ensures RunFrom(s, steps + more) == RunFrom(RunFrom(s, steps), more)
    decreases |steps|
  {
    if steps == [] {
      assert steps + more == more;
    } else {
      StepKeepsInv(s, steps[0]);
      assert (steps + more)[1..] == steps[1..] + more;
      RunTogether(Apply(s, steps[0]), steps[1..], more);
    }
  }

  /** The dust settles: every run can be finished by the parties it left at work, without any
      new request, client, drain or shutdown. */
  lemma Settles(steps: seq<Step>) returns (more: seq<Step>)
    ensures forall i | 0 <= i < |more| :: Finishing(more[i])
    ensures AllEnabled(Run(steps), more)
    ensures Quiet(Run(steps + more)) && |Run(steps + more).requests| == |Run(steps).requests|
  {
    more := SettlesFrom(Run(steps));
    RunTogether(INITIAL, steps, more);
  }

  /** A run in which the parties have gone on until none of them can move has reported every
      request ever registered exactly once, and told its hook the reported decision. */
  lemma EveryRequestIsFinished(steps: seq<Step>, id: RequestId)
    requires id < |Run(steps).requests|
    requires forall step | Finishing(step) :: !Enabled(Run(steps), step)
    ensures var s := Run(steps);
            var reports := ReportsOf(s.log, id);
            && |reports| == 1
            && s.requests[id].decision == Some(reports[0].verdict.reason == Approved)
  {
    NobodyIsStuck(steps);
    FinishedExactlyOnce(steps, id);
  }

  /** Any run extends, by steps of the parties alone, to one in which every request has been
      reported exactly once. */
  lemma EveryRunFinishes(steps: seq<Step>) returns (more: seq<Step>)
    ensures forall i | 0 <= i < |more| :: Finishing(more[i])
    ensures |Run(steps + more).requests| == |Run(steps).requests|
    ensures forall id | 0 <= id < |Run(steps).requests| :: |ReportsOf(Run(steps + more).log, id)| == 1
  {
    more := Settles(steps);
    forall id | 0 <= id < |Run(steps).requests| ensures |ReportsOf(Run(steps + more).log, id)| == 1 {
      FinishedExactlyOnce(steps + more, id);
    }
  }

  // ---------------------------------------------------------------- whose decision it is

  lemma {:induction false} RunFromLast(s: System, steps: seq<Step>)
    requires Inv(s) && steps != []
    ensures RunFrom(s, steps) == Apply(RunFrom(s, steps[..|steps| - 1]), steps[|steps| - 1])
    decreases |steps|
  {
    hide Apply, Inv;
    StepKeepsInv(s, steps[0]);
    if |steps| == 1 {
      assert steps[1..] == [] && steps[..0] == [];
    } else {
      var front := steps[..|steps| - 1];
      assert front[1..] == steps[1..][..|steps| - 2];
      RunFromLast(Apply(s, steps[0]), steps[1..]);
    }
  }

  lemma RunLast(steps: seq<Step>)
    requires steps != []
    ensures Run(steps) == Apply(Run(steps[..|steps| - 1]), steps[|steps| - 1])
  {
    RunFromLast(INITIAL, steps);
  }

  /** The step that took the request out of the table. */
  ghost function TakingStep(steps: seq<Step>, id: RequestId): Option<Step> {
    if steps == [] then None
    else
      var front, last := steps[..|steps| - 1], steps[|steps| - 1];
      NextTaking(Run(front), last, id, TakingStep(front, id))
  }

  ghost function NextTaking(s: System, step: Step, id: RequestId, before: Option<Step>): Option<Step> {
    if before.None? && id in s.table.pending && id !in Apply(s, step).table.pending then Some(step) else before
  }

  /** What the user decided with this step, if the user decided. */
  function UserSaid(step: Step): Option<bool> {
    match step
    case ResolveTake(_, allow) => Some(allow)
    case HookSpeaks(_, local) => local
    case _ => None
  }

  /** How a request ended by this step is reported. */
  function EndedBy(step: Step): Reason {
    match step
    case ResolveTake(_, allow) => if allow then Approved else Denied
    case HookSpeaks(_, Some(allow)) => if allow then Approved else Denied
    case HookSpeaks(_, None) => HookDisconnected
    case DrainTake(_, _) => SessionDrained
    case CloseTake(_) => ServerShutdown
    case _ => TimedOut
  }

  /** The steps that may take this request: a client's answer to it, its own handler's, the drain
      of its session or of all, and the shutdown. */
  predicate MayTake(step: Step, id: RequestId, session: SessionId) {
    match step
    case ResolveTake(d, _) => d == id
    case HookSpeaks(d, _) => d == id
    case Timeout(d) => d == id
    case DrainTake(drained, _) => drained == session || drained == ""
    case CloseTake(_) => true
    case _ => false
  }

  /** A request's verdict is that of the step that took it. */
  ghost predicate Decided(r: Request, id: RequestId, taking: Option<Step>) {
    && (r.stage.InTable? <==> taking.None?)
    && (taking.Some? ==>
          && r.verdict == Verdict(UserSaid(taking.value), EndedBy(taking.value))
          && MayTake(taking.value, id, r.session))
  }

  lemma TakerStepDecides(s: System, step: Step, id: RequestId, taking: Option<Step>)
    requires Inv(s) && id < |s.requests| && Decided(s.requests[id], id, taking)
    requires step.ResolveTake? || step.DrainTake? || step.CloseTake?
    ensures id < |Apply(s, step).requests| && Decided(Apply(s, step).requests[id], id, NextTaking(s, step, id, taking))
  {
    hide RequestInv, TakerInv, ReportsOf;
    assert PlaceInv(s, id);
  }

  lemma PartyStepDecides(s: System, step: Step, id: RequestId, taking: Option<Step>)
    requires Inv(s) && id < |s.requests| && Decided(s.requests[id], id, taking)
    requires Finishing(step) || step.HookSpeaks?
    ensures id < |Apply(s, step).requests| && Decided(Apply(s, step).requests[id], id, NextTaking(s, step, id, taking))
  {
    hide ReportsOf;
    assert PlaceInv(s, id);
    if (step.Send? || step.Report?) && Enabled(s, step) {
      assert TakerInv(s, step.taker);
    }
  }

  lemma OtherStepDecides(s: System, step: Step, id: RequestId, taking: Option<Step>)
    requires Inv(s) && id < |s.requests| && Decided(s.requests[id], id, taking)
    requires step.RegisterStep? || step.CloseFlag?
    ensures id < |Apply(s, step).requests| && Decided(Apply(s, step).requests[id], id, NextTaking(s, step, id, taking))
  {
    hide RequestInv, TakerInv, ReportsOf;
    assert PlaceInv(s, id);
  }

  lemma NewRequestUndecided(s: System, step: Step, id: RequestId)
    requires Inv(s) && |s.requests| <= id
    ensures NextTaking(s, step, id, None).None?
    ensures id < |Apply(s, step).requests| ==> Apply(s, step).requests[id].stage.InTable?
  {
    hide RequestInv, TakerInv, ReportsOf;
  }

  lemma {:induction false} RunDecided(steps: seq<Step>, id: RequestId)
    ensures if id < |Run(steps).requests| then Decided(Run(steps).requests[id], id, TakingStep(steps, id))
            else TakingStep(steps, id).None?
  {
    hide Apply, Inv, Decided, NextTaking, RunFrom;
    if steps == [] {
      NothingRegistered();
    } else {
      var front, last := steps[..|steps| - 1], steps[|steps| - 1];
      RunDecided(front, id);
      RunLast(steps);
      StepDecides(Run(front), last, id, TakingStep(front, id));
    }
  }

  lemma NothingRegistered()
    ensures Run([]).requests == [] && !Run([]).table.closed
  {
  }

  lemma StepDecides(s: System, step: Step, id: RequestId, taking: Option<Step>)
    requires Inv(s)
    requires if id < |s.requests| then Decided(s.requests[id], id, taking) else taking.None?
    ensures if id < |Apply(s, step).requests| then
              Decided(Apply(s, step).requests[id], id, NextTaking(s, step, id, taking))
            else NextTaking(s, step, id, taking).None?
  {
    hide Apply, Inv, NextTaking;
    if id >= |s.requests| {
      NewRequestUndecided(s, step, id);
    } else if step.RegisterStep? || step.CloseFlag? {
      OtherStepDecides(s, step, id, taking);
    } else if step.ResolveTake? || step.DrainTake? || step.CloseTake? {
      TakerStepDecides(s, step, id, taking);
    } else {
      PartyStepDecides(s, step, id, taking);
    }
  }

  /** The hook is told, and the report says, what the taking step decided: the user's own answer
      if a client or the hook gave one, and otherwise a denial with the reason of the step.  So
      a tool is allowed exactly if the step that took the request carried `true`. */
  lemma DecisionIsTakers(steps: seq<Step>, id: RequestId)
    requires id < |Run(steps).requests|
    ensures var r, taking := Run(steps).requests[id], TakingStep(steps, id);
            && (r.decision.Some? ==> taking.Some? && (r.decision.value <==> UserSaid(taking.value) == Some(true)))
            && (forall f | f in ReportsOf(Run(steps).log, id) ::
                  taking.Some? && f == Finished(id, r.session, Verdict(UserSaid(taking.value), EndedBy(taking.value))))
            && (taking.Some? ==> taking.value in steps && MayTake(taking.value, id, r.session))
  {
    hide Apply, RunFrom, TakerInv, NextTaking, ReportsOf;
    RunDecided(steps, id);
    TakingIsAStep(steps, id);
    assert PlaceInv(Run(steps), id);
  }

  lemma {:induction false} TakingIsAStep(steps: seq<Step>, id: RequestId)
    ensures TakingStep(steps, id).Some? ==> TakingStep(steps, id).value in steps
  {
    hide Run, Apply;
    if steps != [] {
      TakingIsAStep(steps[..|steps| - 1], id);
    }
  }

  /** When nobody can move any more, every request ever registered has been taken by a step, its
      hook was told that step's decision, and it was reported once, with that step's reason. */
  lemma EveryDecisionIsTakers(steps: seq<Step>, id: RequestId)
    requires id < |Run(steps).requests| && Quiet(Run(steps))
    ensures var r, taking := Run(steps).requests[id], TakingStep(steps, id);
            && taking.Some?
            && r.decision == Some(UserSaid(taking.value) == Some(true))
            && ReportsOf(Run(steps).log, id)
                 == [Finished(id, r.session, Verdict(UserSaid(taking.value), EndedBy(taking.value)))]
  {
    hide Apply, RunFrom, NextTaking, ReportsOf, TakingStep, Quiet, Inv;
    FinishedExactlyOnce(steps, id);
    DecisionIsTakers(steps, id);
    var reports := ReportsOf(Run(steps).log, id);
    assert reports[0] in reports;
  }

  /** The sessions of the requests registered so far, in order, as the steps tell it. */
  function Registered(steps: seq<Step>): seq<SessionId> {
    if steps == [] then []
    else
      var front, last := steps[..|steps| - 1], steps[|steps| - 1];
      Registered(front)
      + if last.RegisterStep? && last.session != "" && CloseFlag !in front then [last.session] else []
  }

  lemma RegisterGrows(s: System, step: Step, closed: bool)
    requires Inv(s) && (s.table.closed <==> closed)
    ensures var s' := Apply(s, step);
            && (s'.table.closed <==> closed || step == CloseFlag)
            && |s'.requests| == |s.requests| + (if step.RegisterStep? && step.session != "" && !closed then 1 else 0)
            && (forall id | 0 <= id < |s.requests| :: s'.requests[id].session == s.requests[id].session)
            && (|s'.requests| > |s.requests| ==> s'.requests[|s.requests|].session == step.session)
  {
    hide PlaceInv, TakerInv;
  }

  /** A request is registered by every connection of a session that comes before the server is
      closed, and by no other; it keeps its session. */
  lemma {:induction false} RegisteredIff(steps: seq<Step>)
    ensures Run(steps).table.closed <==> CloseFlag in steps
    ensures |Run(steps).requests| == |Registered(steps)|
    ensures forall id | 0 <= id < |Registered(steps)| :: Run(steps).requests[id].session == Registered(steps)[id]
  {
    hide Apply, Inv, RunFrom;
    if steps == [] {
      NothingRegistered();
    } else {
      var front, last := steps[..|steps| - 1], steps[|steps| - 1];
      assert steps == front + [last];
      RegisteredIff(front);
      RunLast(steps);
      RegisterGrows(Run(front), last, CloseFlag in front);
    }
  }

  /** A pending request is taken by the first step aimed at it: its client's answer, its handler's
      timeout or hook, a drain of its session or of all, or the shutdown. */
  lemma TakenIff(steps: seq<Step>, step: Step, id: RequestId)
    requires id in Run(steps).table.pending
    ensures id < |Run(steps).requests|
    ensures id !in Apply(Run(steps), step).table.pending <==>
      Enabled(Run(steps), step) && MayTake(step, id, Run(steps).requests[id].session)
  {
    hide TakerInv, RunFrom, ReportsOf;
    assert PlaceInv(Run(steps), id);
  }

  /** A drain leaves no request of its session pending, and takes none of another session. */
  lemma DrainTakesItsSession(steps: seq<Step>, session: SessionId, ids: seq<RequestId>, id: RequestId)
    requires Enabled(Run(steps), DrainTake(session, ids)) && session != "" && id < |Run(steps).requests|
    ensures var s, s' := Run(steps), Apply(Run(steps), DrainTake(session, ids));
            id in s'.table.pending <==> id in s.table.pending && s.requests[id].session != session
  {
    assert PlaceInv(Run(steps), id);
  }

  // ---------------------------------------------------------------- the race

  /** A send never blocks: the one-slot channel is empty when its answer is sent. */
  lemma SendNeverBlocks(steps: seq<Step>, t: TakerId)
    requires Enabled(Run(steps), Send(t))
    ensures Run(steps).requests[Run(steps).takers[t].todo[0]].channel == []
  {
    assert TakerInv(Run(steps), t);
    assert PlaceInv(Run(steps), Run(steps).takers[t].todo[0]);
  }

  /** A handler that lost the race finds the winner's answer in its channel, or the winner is
      still on the way to put it there. */
  lemma LoserIsAnswered(steps: seq<Step>, id: RequestId)
    requires id < |Run(steps).requests| && Run(steps).requests[id].handler.MustReceive?
    ensures var s := Run(steps);
            || s.requests[id].channel != []
            || exists t | 0 <= t < |s.takers| ::
              id in s.takers[t].todo && (s.takers[t].todo[0] == id ==> !s.takers[t].sent)
  {
    var s := Run(steps);
    assert PlaceInv(s, id);
    if s.requests[id].channel == [] {
      var t := s.requests[id].stage.taker;
      assert TakerInv(s, t);
      assert id in s.takers[t].todo;
    }
  }

  /** The shutdown takes every request that is pending, and marks the table as drained. */
  lemma ShutdownDrains(steps: seq<Step>, ids: seq<RequestId>)
    requires Enabled(Run(steps), CloseTake(ids))
    ensures var s := Apply(Run(steps), CloseTake(ids));
            s.drained && s.table.closed && s.table.pending == map[]
  {
    hide RunFrom, TakerInv, PlaceInv;
    StepKeepsInv(Run(steps), CloseTake(ids));
  }

  /** Once shutdown has drained the table, no request is ever pending again. */
  lemma {:induction false} ClosedForGood(s: System, steps: seq<Step>)
    requires Inv(s) && s.drained
    ensures RunFrom(s, steps).drained && RunFrom(s, steps).table.pending == map[]
    decreases |steps|
  {
    if steps != [] {
      StepKeepsInv(s, steps[0]);
      ClosedForGood(Apply(s, steps[0]), steps[1..]);
    }
  }

  /** A settled request stays settled: its report and its decision never change again. */
  lemma {:induction false} SettledForGood(s: System, steps: seq<Step>, id: RequestId)
    requires Inv(s) && id < |s.requests| && ReportsOf(s.log, id) != []
    ensures id < |RunFrom(s, steps).requests| && ReportsOf(RunFrom(s, steps).log, id) == ReportsOf(s.log, id)
    ensures s.requests[id].decision.Some? ==> RunFrom(s, steps).requests[id].decision == s.requests[id].decision
    decreases |steps|
  {
    if steps != [] {
      StepKeepsInv(s, steps[0]);
      SettledStep(s, steps[0], id);
      SettledForGood(Apply(s, steps[0]), steps[1..], id);
    }
  }

  lemma SettledStep(s: System, step: Step, id: RequestId)
    requires Inv(s) && id < |s.requests| && ReportsOf(s.log, id) != []
    ensures var s' := Apply(s, step);
            && id < |s'.requests| && ReportsOf(s'.log, id) == ReportsOf(s.log, id)
            && (s.requests[id].decision.Some? ==> s'.requests[id].decision == s.requests[id].decision)
  {
    hide ReportsOf;
    assert PlaceInv(s, id);
    if Enabled(s, step) {
      match step
      case Report(t) =>
        assert TakerInv(s, t);
        var d := s.takers[t].todo[0];
        assert PlaceInv(s, d);
        ReportAdded(s.log, Finished(d, s.requests[d].session, s.takers[t].verdict), id);
      case HandlerReport(d) =>
        assert PlaceInv(s, d);
        ReportAdded(s.log, Finished(d, s.requests[d].session, s.requests[d].handler.verdict), id);
      case Send(t) => assert TakerInv(s, t);
      case _ =>
    }
  }

  // ---------------------------------------------------------------- the table object

  class PendingTable {
    var pending: map<RequestId, SessionId>
    var closed: bool

    ghost function View(): Table
      reads this
    {
      Table(pending, closed)
    }

    constructor ()
      ensures View() == INITIAL.table
    {
      pending := map[];
      closed := false;
    }

    /** Register a request, unless the server has been closed. */
    method Add(id: RequestId, session: SessionId) returns (registered: bool)
      modifies this
      ensures (View(), registered) == Register(old(View()), id, session)
    {
      if closed {
        return false;
      }
      pending := pending[id := session];
      return true;
    }

    method Close()
      modifies this
      ensures View() == old(View()).(closed := true)
    {
      closed := true;
    }

    /** The one that gets `true` has won the request. */
    method TakePending(id: RequestId) returns (won: bool)
      modifies this
      ensures (View(), won) == Take(old(View()), id)
    {
      won := id in pending;
      if won {
        pending := pending - {id};
      }
    }

    /** Take every request of a session, or every request at all. */
    method TakePendingForSession(session: SessionId) returns (taken: seq<RequestId>)
      modifies this
      ensures Lists(taken, Matching(old(View()), session))
      ensures View() == TakeMatching(old(View()), session)
    {
      taken := [];
      var todo := pending.Keys;
      while todo != {}
        invariant todo <= pending.Keys
        invariant forall id :: id in pending <==> id in old(pending) && id !in taken
        invariant forall id | id in pending :: pending[id] == old(pending)[id]
        invariant forall id :: id in taken <==> id in Matching(old(View()), session) && id !in todo
        invariant Distinct(taken) && closed == old(closed)
        decreases todo
      {
        var id :| id in todo;
        todo := todo - {id};
        if session == "" || pending[id] == session {
          taken := taken + [id];
          pending := pending - {id};
        }
      }
    }
  }
}
