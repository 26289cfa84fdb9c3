/**
 What coalescing means to the connections themselves: whose decision each of them ends with,
 and what an arriving connection becomes, told from the steps of the run.
 */
module CoalescingRuns {
  import opened Common
  import opened Coalescing

  // ---------------------------------------------------------------- decisions of a run

  lemma {:induction false} RunFromLast(s: System, steps: seq<Step>)
    requires steps != []
    ensures RunFrom(s, steps) == Apply(RunFrom(s, steps[..|steps| - 1]), steps[|steps| - 1])
    decreases |steps|
  {
    hide Apply;
    if |steps| == 1 {
      assert steps[1..] == [] && steps[..0] == [];
    } else {
      var front := steps[..|steps| - 1];
      assert front[1..] == steps[1..][..|steps| - 2];
      RunFromLast(Apply(s, steps[0]), steps[1..]);
    }
  }

  lemma RunLast(steps: seq<Step>, step: Step)
    ensures Run(steps + [step]) == Apply(Run(steps), step)
  {
    hide Apply;
    RunFromLast(INITIAL, steps + [step]);
    assert (steps + [step])[..|steps|] == steps;
  }

  datatype Ruling = Ruling(response: Response, time: Time)

  /** The decision a connection made, as the steps tell it. */
  ghost function RulingOf(steps: seq<Step>, l: ConnId): Option<Ruling> {
    if steps == [] then None
    else
      var front, last := steps[..|steps| - 1], steps[|steps| - 1];
      if last.Decide? && last.conn == l && Enabled(Run(front), last) then Some(Ruling(last.response, last.now))
      else RulingOf(front, l)
  }

  lemma RulingNext(steps: seq<Step>, step: Step, l: ConnId)
    ensures RulingOf(steps + [step], l) ==
      if step.Decide? && step.conn == l && Enabled(Run(steps), step) then Some(Ruling(step.response, step.now))
      else RulingOf(steps, l)
  {
    hide Enabled, Run;
    assert (steps + [step])[..|steps|] == steps;
  }

  function ResponseOf(ruling: Option<Ruling>): Option<Response> {
    if ruling.Some? then Some(ruling.value.response) else None
  }

  /** The call carries its leader's ruling, and lasts a minute from then. */
  predicate Carries(call: Call, ruling: Option<Ruling>) {
    if ruling.None? then !call.done && call.expires == None
    else
      && call.done && call.response == ruling.value.response
      && call.expires == Some(ruling.value.time + 60_000_000_000)
  }

  predicate Obeys(s: System, l: ConnId, ruling: Option<Ruling>) {
    if l >= |s.conns| then ruling.None?
    else
      match s.conns[l].role
      case Independent => s.conns[l].response == ResponseOf(ruling)
      case Leader(c) =>
        && s.conns[l].response == ResponseOf(ruling) && c < |s.table.heap| && Carries(s.table.heap[c], ruling)
      case _ => ruling.None?
  }

  lemma ArriveObeys(s: System, step: Step, l: ConnId, ruling: Option<Ruling>)
    requires Inv(s) && Obeys(s, l, ruling) && step.Arrive?
    ensures Obeys(Apply(s, step), l, ruling)
  {
    hide Inv, CallInv, ConnInv, OneLeader, TableInv, Purged;
    if Enabled(s, step) {
      Joins(s, step.hook, step.now);
    }
  }

  lemma Joins(s: System, hook: Hook, now: Time)
    requires Inv(s)
    ensures s.table.WellFormed()
    ensures var (table, role) := JoinRegion(s.table, hook, now);
            && s.table.heap <= table.heap
            && (role.Leader? ==> role.call == |s.table.heap| && |table.heap| == |s.table.heap| + 1
                                 && !table.heap[role.call].done && table.heap[role.call].expires == None)
  {
    hide CallInv, ConnInv, OneLeader, Purged, KeyOf, QuestionOf;
  }

  lemma DecideObeys(s: System, step: Step, l: ConnId, ruling: Option<Ruling>)
    requires Inv(s) && Obeys(s, l, ruling) && step.Decide?
    ensures Obeys(Apply(s, step), l,
                  if step.conn == l && Enabled(s, step) then Some(Ruling(step.response, step.now)) else ruling)
  {
    hide CallInv, ConnInv, TableInv;
  }

  lemma WakeObeys(s: System, step: Step, l: ConnId, ruling: Option<Ruling>)
    requires Inv(s) && Obeys(s, l, ruling) && step.Wake?
    ensures Obeys(Apply(s, step), l, ruling)
  {
    hide CallInv, ConnInv, TableInv, OneLeader;
  }

  lemma {:induction false} RunObeys(steps: seq<Step>, l: ConnId)
    ensures Inv(Run(steps)) && Obeys(Run(steps), l, RulingOf(steps, l))
  {
    hide Inv, Obeys, Apply, Enabled;
    RunInv(steps);
    if steps == [] {
      NobodyRules(l);
    } else {
      var front, last := steps[..|steps| - 1], steps[|steps| - 1];
      assert front + [last] == steps;
      RunObeys(front, l);
      RunLast(front, last);
      RulingNext(front, last, l);
      var s := Run(front);
      if last.Arrive? {
        ArriveObeys(s, last, l, RulingOf(front, l));
      } else if last.Decide? {
        DecideObeys(s, last, l, RulingOf(front, l));
      } else {
        WakeObeys(s, last, l, RulingOf(front, l));
      }
    }
  }

  lemma NobodyRules(l: ConnId)
    ensures Obeys(Run([]), l, RulingOf([], l))
  {
  }

  // ---------------------------------------------------------------- whose decision it is

  /** A connection on its own and a leader are answered with their own decision, as soon as it is
      made; a follower with its leader's, once that is made; a refused one is denied. */
  lemma AnswerIsRuling(steps: seq<Step>, l: ConnId)
    requires l < |Run(steps).conns|
    ensures var conn := Run(steps).conns[l];
            match conn.role
            case Independent => conn.response == ResponseOf(RulingOf(steps, l))
            case Leader(_) => conn.response == ResponseOf(RulingOf(steps, l))
            case Follower(c) =>
              && RulingOf(steps, l).None?
              && exists leader: ConnId ::
                   && Leads(Run(steps), leader, c)
                   && (conn.response.Some? ==> conn.response == ResponseOf(RulingOf(steps, leader)))
            case Refused =>
              && RulingOf(steps, l).None?
              && conn.response
                 == Some(Response(false, "approval tool invocation conflict or capacity exceeded", false))
  {
    hide Run, CallInv, TableInv, OneLeader, RulingOf;
    RunObeys(steps, l);
    assert ConnInv(Run(steps), l);
    var role := Run(steps).conns[l].role;
    if role.Follower? {
      var leader := ExactlyOneLeader(steps, role.call);
      RunObeys(steps, leader);
    }
  }

  /** A follower that still waits is answered by its next wake-up exactly if its leader has decided,
      and then with the leader's decision. */
  lemma FollowerIsAnswered(steps: seq<Step>, f: ConnId, leader: ConnId)
    requires f < |Run(steps).conns| && Run(steps).conns[f].role.Follower? && Run(steps).conns[f].response.None?
    requires Leads(Run(steps), leader, Run(steps).conns[f].role.call)
    ensures f < |Run(steps + [Wake(f)]).conns|
    ensures Run(steps + [Wake(f)]).conns[f].response == ResponseOf(RulingOf(steps, leader))
  {
    hide Run, CallInv, OneLeader, RulingOf;
    RunObeys(steps, leader);
    RunLast(steps, Wake(f));
    assert ConnInv(Run(steps), f);
  }

  // ---------------------------------------------------------------- what a connection becomes

  predicate SameInvocation(a: Hook, b: Hook) {
    a.session == b.session && a.toolUse == b.toolUse
  }

  /** The same tool, place, mode and input; leaving the input out is the same as `null`. */
  predicate SameQuestion(a: Hook, b: Hook) {
    && a.tool == b.tool && a.cwd == b.cwd && a.mode == b.mode
    && (a.input.Value? && a.input.canonical != "null" ==> b.input == a.input)
    && (b.input.Value? && b.input.canonical != "null" ==> b.input == a.input)
  }

  lemma QuestionIsHook(a: Hook, b: Hook)
    ensures KeyOf(a) == KeyOf(b) <==> SameInvocation(a, b)
    ensures QuestionOf(a) == QuestionOf(b) <==> SameQuestion(a, b)
  {
  }

  /** The connection leads, and its decision is pending or less than a minute old. */
  ghost predicate Fresh(steps: seq<Step>, l: ConnId, now: Time) {
    && l < |Run(steps).conns| && Run(steps).conns[l].role.Leader?
    && (RulingOf(steps, l).Some? ==> now < RulingOf(steps, l).value.time + 60_000_000_000)
  }

  ghost function FreshLeaders(steps: seq<Step>, now: Time): set<ConnId> {
    set l | 0 <= l < |Run(steps).conns| && Fresh(steps, l, now)
  }

  lemma FreshIsLive(steps: seq<Step>, l: ConnId, now: Time)
    requires l < |Run(steps).conns| && Run(steps).conns[l].role.Leader?
    ensures Fresh(steps, l, now) <==> Live(Run(steps), now, Run(steps).conns[l].role.call)
    ensures Run(steps).conns[l].role.call < |Run(steps).table.heap|
    ensures Answers(Run(steps).conns[l], Run(steps).table.heap[Run(steps).conns[l].role.call])
  {
    hide Run, CallInv, TableInv, OneLeader, RulingOf;
    RunObeys(steps, l);
    assert ConnInv(Run(steps), l);
  }

  lemma AsManyFresh(steps: seq<Step>, now: Time)
    ensures |FreshLeaders(steps, now)| == |LiveCalls(Run(steps), now)|
  {
    hide Run, Fresh, Live, Answers;
    var s, leaders := Run(steps), FreshLeaders(steps, now);
    RunInv(steps);
    forall l | l in leaders ensures s.conns[l].role.Leader? && s.conns[l].role.call in LiveCalls(s, now) {
      assert s.conns[l].role.Leader? by { FreshLeads(steps, l, now); }
      FreshIsLive(steps, l, now);
    }
    var calls := map l | l in leaders :: s.conns[l].role.call;
    forall c ensures c in LiveCalls(s, now) <==> exists l :: l in calls && calls[l] == c {
      if c in LiveCalls(s, now) {
        var l := ExactlyOneLeader(steps, c);
        FreshIsLive(steps, l, now);
        assert l in calls && calls[l] == c;
      }
    }
    InjectiveImage(calls, LiveCalls(s, now));
    assert calls.Keys == leaders && |calls| == |calls.Keys|;
  }

  lemma FreshLeads(steps: seq<Step>, l: ConnId, now: Time)
    requires Fresh(steps, l, now)
    ensures l < |Run(steps).conns| && Run(steps).conns[l].role.Leader?
  {
  }

  /** The connection is the fresh leader of the hook's invocation. */
  ghost predicate LeadsFor(steps: seq<Step>, l: ConnId, hook: Hook, now: Time) {
    Fresh(steps, l, now) && SameInvocation(Run(steps).conns[l].hook, hook)
  }

  lemma Arrives(steps: seq<Step>, hook: Hook, now: Time)
    requires hook.session != "" && Run(steps).clock <= now
    ensures Run(steps).table.WellFormed()
    ensures var s' := Run(steps + [Arrive(hook, now)]);
            && |s'.conns| == |Run(steps).conns| + 1 && s'.conns[..|Run(steps).conns|] == Run(steps).conns
            && s'.conns[|Run(steps).conns|].hook == hook
            && s'.conns[|Run(steps).conns|].role == JoinRegion(Run(steps).table, hook, now).1
            && s'.clock == now
  {
    hide Run, CallInv, ConnInv, OneLeader, JoinRegion;
    RunInv(steps);
    RunLast(steps, Arrive(hook, now));
  }

  /** A connection without an invocation id stays on its own; one whose input is no JSON is
      refused.  Any other follows the fresh leader of its invocation if that asks the same
      question, and is refused if it asks another; without a fresh leader it leads, unless ten
      thousand leaders are fresh.  No two fresh leaders share an invocation. */
  lemma ArrivalBecomes(steps: seq<Step>, hook: Hook, now: Time)
    requires hook.session != "" && Run(steps).clock <= now
    ensures |Run(steps + [Arrive(hook, now)]).conns| == |Run(steps).conns| + 1
    ensures var s := Run(steps);
            var role := Run(steps + [Arrive(hook, now)]).conns[|s.conns|].role;
            if hook.toolUse == "" then role == Independent
            else if hook.input.Malformed? then role == Refused
            else if exists l: ConnId :: LeadsFor(steps, l, hook, now) then
              exists l: ConnId ::
                && LeadsFor(steps, l, hook, now)
                && role == if SameQuestion(s.conns[l].hook, hook) then Follower(s.conns[l].role.call) else Refused
            else if |FreshLeaders(steps, now)| >= 10_000 then role == Refused
            else role == Leader(|s.table.heap|)
  {
    hide Run, CallInv, ConnInv, OneLeader, RulingOf, Fresh, FreshLeaders, LiveCalls, KeyOf, QuestionOf,
      SameInvocation, SameQuestion, JoinRegion;
    var s := Run(steps);
    Arrives(steps, hook, now);
    if hook.toolUse == "" || hook.input.Malformed? {
      OutsideOutcome(s.table, hook, now);
    } else {
      JoinOutcome(steps, hook, now);
      AsManyFresh(steps, now);
      if l: ConnId :| LeadsFor(steps, l, hook, now) {
        FreshLeads(steps, l, now);
        FreshIsLive(steps, l, now);
        QuestionIsHook(s.conns[l].hook, hook);
        assert s.table.heap[s.conns[l].role.call].key == KeyOf(hook);
      } else {
        forall c: CallId | Live(s, now, c) ensures s.table.heap[c].key != KeyOf(hook) {
          if s.table.heap[c].key == KeyOf(hook) {
            LiveIsFresh(steps, c, now, hook);
          }
        }
      }
    }
  }

  lemma OutsideOutcome(table: Table, hook: Hook, now: Time)
    requires table.WellFormed() && (hook.toolUse == "" || hook.input.Malformed?)
    ensures JoinRegion(table, hook, now).1 == if hook.toolUse == "" then Independent else Refused
  {
  }

  lemma LiveIsFresh(steps: seq<Step>, c: CallId, now: Time, hook: Hook)
    requires Live(Run(steps), now, c) && Run(steps).table.heap[c].key == KeyOf(hook)
    ensures exists l: ConnId :: LeadsFor(steps, l, hook, now)
  {
    hide Run, Fresh;
    var l := ExactlyOneLeader(steps, c);
    FreshIsLive(steps, l, now);
    QuestionIsHook(Run(steps).conns[l].hook, hook);
    assert LeadsFor(steps, l, hook, now);
  }

  /** No two fresh leaders ask about the same invocation. */
  lemma OneFreshLeader(steps: seq<Step>, l: ConnId, m: ConnId, now: Time)
    requires Run(steps).clock <= now && Fresh(steps, l, now) && Fresh(steps, m, now)
    requires SameInvocation(Run(steps).conns[l].hook, Run(steps).conns[m].hook)
    ensures l == m
  {
    hide Run, RulingOf, CallInv, TableInv;
    var s := Run(steps);
    RunInv(steps);
    FreshIsLive(steps, l, now);
    FreshIsLive(steps, m, now);
    PurgedIsLive(s, now);
    assert s.conns[l].role == s.conns[m].role;
  }
}
