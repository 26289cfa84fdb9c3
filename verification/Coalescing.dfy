module Coalescing {
  // Coalescing of hook connections that ask about the same tool invocation.
  //
  // The first connection for a (session, tool-use id) pair leads: it puts the question to the
  // user and publishes the answer.  Connections that ask the same thing while the answer is
  // pending, or within a minute after it, follow and receive the same answer; connections
  // that reuse the pair for a different question are refused.
  //
  // A step is one locked region or one wake-up, taken at a time the clock never turns back
  // from.  A run is any sequence of steps; a step that is not enabled changes nothing.

  import opened Common

  type CallId = nat
  type ConnId = nat

  /** Nanoseconds. */
  type Time = int

  const CAPACITY := 10_000
  const LIFETIME := 60_000_000_000

  datatype Key = Key(session: string, toolUse: string)

  /** The tool's input: nothing at all, a JSON value in canonical form, or not JSON. */
  datatype Input = Absent | Value(canonical: string) | Malformed

  datatype Hook = Hook(session: string, toolUse: string, tool: string, cwd: string, mode: string, input: Input)

  /** What a fingerprint is the hash of. */
  datatype Question = Question(tool: string, cwd: string, mode: string, canonical: string)

  datatype Response = Response(allow: bool, reason: string, lockConflict: bool)

  /** One shared decision.  `key` and `born` are history: nobody reads them. */
  datatype Call = Call(
    key: Key,
    born: Time,
    question: Question,
    done: bool,
    response: Response,
    expires: Option<Time>)

  datatype Table = Table(calls: map<Key, CallId>, heap: seq<Call>)
  {
    predicate WellFormed() {
      forall k | k in calls :: calls[k] < |heap|
    }
  }

  datatype Role =
    | Independent
    | Refused
    | Leader(call: CallId)
    | Follower(call: CallId)

  const NO_RESPONSE := Response(false, "", false)
  const CONFLICT := Response(false, "approval tool invocation conflict or capacity exceeded", false)

  // ---------------------------------------------------------------- the locked regions

  function KeyOf(hook: Hook): Key {
    Key(hook.session, hook.toolUse)
  }

  /** An absent input and the input `null` are the same question. */
  function QuestionOf(hook: Hook): Question {
    Question(hook.tool, hook.cwd, hook.mode, if hook.input.Value? then hook.input.canonical else "null")
  }

  predicate Expired(call: Call, now: Time) {
    call.expires.Some? && call.expires.value <= now
  }

  function Purged(table: Table, now: Time): map<Key, CallId>
    requires table.WellFormed()
  {
    map k | k in table.calls && !Expired(table.heap[table.calls[k]], now) :: table.calls[k]
  }

  function FreshCall(hook: Hook, now: Time): Call {
    Call(KeyOf(hook), now, QuestionOf(hook), false, NO_RESPONSE, None)
  }

  function JoinRegion(table: Table, hook: Hook, now: Time): (Table, Role)
    requires table.WellFormed()
  {
    if hook.toolUse == "" then (table, Independent)
    else if hook.input.Malformed? then (table, Refused)
    else
      var calls := Purged(table, now);
      var key := KeyOf(hook);
      if key in calls then
        (Table(calls, table.heap),
         if table.heap[calls[key]].question == QuestionOf(hook) then Follower(calls[key]) else Refused)
      else if |calls| >= CAPACITY then (Table(calls, table.heap), Refused)
      else (Table(calls[key := |table.heap|], table.heap + [FreshCall(hook, now)]), Leader(|table.heap|))
  }

  function Completed(call: Call, response: Response, now: Time): Call {
    call.(response := response, expires := Some(now + LIFETIME), done := true)
  }

  function CompleteRegion(table: Table, c: CallId, response: Response, now: Time): Table
    requires c < |table.heap|
  {
    table.(heap := table.heap[c := Completed(table.heap[c], response, now)])
  }

  // ---------------------------------------------------------------- the system

  /** A hook connection and the response it ended with. */
  datatype Conn = Conn(hook: Hook, role: Role, response: Option<Response>)

  datatype System = System(table: Table, conns: seq<Conn>, clock: Time)

  datatype Step =
    | Arrive(hook: Hook, now: Time)
    | Decide(conn: ConnId, response: Response, now: Time)
    | Wake(conn: ConnId)

  const INITIAL := System(Table(map[], []), [], 0)

  predicate Enabled(s: System, step: Step) {
    && s.table.WellFormed()
    && match step
       case Arrive(hook, now) => hook.session != "" && s.clock <= now
       case Decide(c, _, now) =>
         && c < |s.conns| && s.conns[c].response.None? && s.clock <= now
         && (s.conns[c].role.Independent? || (s.conns[c].role.Leader? && s.conns[c].role.call < |s.table.heap|))
       case Wake(c) =>
         && c < |s.conns| && s.conns[c].response.None?
         && s.conns[c].role.Follower? && s.conns[c].role.call < |s.table.heap|
         && s.table.heap[s.conns[c].role.call].done
  }

  function Arrived(hook: Hook, role: Role): Conn {
    Conn(hook, role, if role.Refused? then Some(CONFLICT) else None)
  }

  function Apply(s: System, step: Step): System {
    if !Enabled(s, step) then s else
      match step
      case Arrive(hook, now) =>
        var (table, role) := JoinRegion(s.table, hook, now);
        System(table, s.conns + [Arrived(hook, role)], now)
      case Decide(c, response, now) =>
        var conn := s.conns[c];
        System(
          if conn.role.Leader? then CompleteRegion(s.table, conn.role.call, response, now) else s.table,
          s.conns[c := conn.(response := Some(response))],
          now)
      case Wake(c) =>
        var conn := s.conns[c];
        s.(conns := s.conns[c := conn.(response := Some(s.table.heap[conn.role.call].response))])
  }

  function RunFrom(s: System, steps: seq<Step>): System
    decreases |steps|
  {
    if steps == [] then s else RunFrom(Apply(s, steps[0]), steps[1..])
  }

  function Run(steps: seq<Step>): System {
    RunFrom(INITIAL, steps)
  }

  // ---------------------------------------------------------------- the invariant

  /** The call is still the one its key stands for. */
  predicate Listed(table: Table, c: CallId)
    requires c < |table.heap|
  {
    table.heap[c].key in table.calls && table.calls[table.heap[c].key] == c
  }

  ghost predicate CallInv(s: System, c: CallId)
    requires c < |s.table.heap|
  {
    var call := s.table.heap[c];
    && (call.done <==> call.expires.Some?)
    && call.born <= s.clock
    && (!Expired(call, s.clock) ==> Listed(s.table, c))
    && (exists l :: Leads(s, l, c))
  }

  predicate Leads(s: System, l: ConnId, c: CallId) {
    l < |s.conns| && s.conns[l].role == Leader(c)
  }

  ghost predicate Succession(heap: seq<Call>) {
    forall c, d | 0 <= c < d < |heap| && heap[c].key == heap[d].key ::
      heap[c].expires.Some? && heap[c].expires.value <= heap[d].born
  }

  ghost predicate TableInv(table: Table) {
    && table.WellFormed()
    && (forall k | k in table.calls :: table.heap[table.calls[k]].key == k)
    && |table.calls| <= CAPACITY
    && Succession(table.heap)
  }

  predicate Answers(conn: Conn, call: Call) {
    call.key == KeyOf(conn.hook) && call.question == QuestionOf(conn.hook)
  }

  ghost predicate ConnInv(s: System, l: ConnId)
    requires l < |s.conns|
  {
    var conn := s.conns[l];
    match conn.role
    case Independent => conn.hook.toolUse == ""
    case Refused => conn.response == Some(CONFLICT)
    case Leader(c) =>
      && c < |s.table.heap| && Answers(conn, s.table.heap[c])
      && conn.response == (if s.table.heap[c].done then Some(s.table.heap[c].response) else None)
    case Follower(c) =>
      && c < |s.table.heap| && Answers(conn, s.table.heap[c])
      && (conn.response.Some? ==> s.table.heap[c].done && conn.response == Some(s.table.heap[c].response))
  }

  ghost predicate OneLeader(s: System) {
    forall l, m | 0 <= l < |s.conns| && 0 <= m < |s.conns| && s.conns[l].role.Leader?
      && s.conns[l].role == s.conns[m].role :: l == m
  }

  ghost predicate Inv(s: System) {
    && TableInv(s.table)
    && OneLeader(s)
    && (forall c | 0 <= c < |s.table.heap| :: CallInv(s, c))
    && (forall l | 0 <= l < |s.conns| :: ConnInv(s, l))
  }

  /** The purge keeps what the table is for. */
  lemma PurgeKeepsTable(table: Table, now: Time)
    requires TableInv(table)
    ensures TableInv(Table(Purged(table, now), table.heap))
  {
    var calls := Purged(table, now);
    SubsetSize(calls.Keys, table.calls.Keys);
    assert |calls| == |calls.Keys| && |table.calls| == |table.calls.Keys|;
  }

  lemma OpenKeepsTable(table: Table, hook: Hook, now: Time)
    requires TableInv(table) && |table.calls| < CAPACITY && KeyOf(hook) !in table.calls
    requires forall c | 0 <= c < |table.heap| && table.heap[c].key == KeyOf(hook) :: Expired(table.heap[c], now)
    ensures TableInv(Table(table.calls[KeyOf(hook) := |table.heap|], table.heap + [FreshCall(hook, now)]))
  {
    hide Succession, QuestionOf;
    var calls := table.calls[KeyOf(hook) := |table.heap|];
    assert calls.Keys == table.calls.Keys + {KeyOf(hook)};
    assert |calls| == |calls.Keys| && |table.calls| == |table.calls.Keys|;
    SuccessionGrows(table.heap, FreshCall(hook, now));
  }

  lemma SuccessionGrows(heap: seq<Call>, call: Call)
    requires Succession(heap)
    requires forall c | 0 <= c < |heap| && heap[c].key == call.key :: Expired(heap[c], call.born)
    ensures Succession(heap + [call])
  {
  }

  lemma ArriveKeepsTable(s: System, hook: Hook, now: Time)
    requires Inv(s) && s.clock <= now
    ensures TableInv(JoinRegion(s.table, hook, now).0)
  {
    hide ConnInv, OneLeader, QuestionOf;
    var purged := Table(Purged(s.table, now), s.table.heap);
    PurgeKeepsTable(s.table, now);
    if KeyOf(hook) !in purged.calls && |purged.calls| < CAPACITY {
      forall c | 0 <= c < |s.table.heap| && s.table.heap[c].key == KeyOf(hook)
        ensures Expired(s.table.heap[c], now)
      {
        assert CallInv(s, c);
      }
      OpenKeepsTable(purged, hook, now);
    }
  }

  lemma ArriveKeepsCalls(s: System, hook: Hook, now: Time, c: CallId)
    requires Inv(s) && Enabled(s, Arrive(hook, now)) && c < |Apply(s, Arrive(hook, now)).table.heap|
    ensures CallInv(Apply(s, Arrive(hook, now)), c)
  {
    hide ConnInv, OneLeader, Succession, KeyOf, QuestionOf;
    var s' := Apply(s, Arrive(hook, now));
    if c < |s.table.heap| {
      assert CallInv(s, c);
      var l :| Leads(s, l, c);
      assert Leads(s', l, c);
    } else {
      assert Leads(s', |s.conns|, c);
    }
  }

  lemma JoinOnlyAdds(table: Table, hook: Hook, now: Time)
    requires TableInv(table)
    ensures table.heap <= JoinRegion(table, hook, now).0.heap
    ensures JoinRegion(table, hook, now).1.Leader? ==> JoinRegion(table, hook, now).1.call == |table.heap|
  {
  }

  lemma ArriveKeepsConn(s: System, hook: Hook, now: Time, l: ConnId)
    requires Inv(s) && Enabled(s, Arrive(hook, now)) && l < |s.conns|
    ensures ConnInv(Apply(s, Arrive(hook, now)), l)
  {
    JoinOnlyAdds(s.table, hook, now);
    assert ConnInv(s, l);
  }

  lemma ArriveAddsConn(s: System, hook: Hook, now: Time)
    requires Inv(s) && Enabled(s, Arrive(hook, now))
    ensures ConnInv(Apply(s, Arrive(hook, now)), |s.conns|)
  {
  }

  lemma ArriveKeepsConns(s: System, hook: Hook, now: Time)
    requires Inv(s) && Enabled(s, Arrive(hook, now))
    ensures OneLeader(Apply(s, Arrive(hook, now)))
    ensures forall l | 0 <= l < |s.conns| + 1 :: ConnInv(Apply(s, Arrive(hook, now)), l)
  {
    JoinOnlyAdds(s.table, hook, now);
    ArriveAddsConn(s, hook, now);
    forall l | 0 <= l < |s.conns|
      ensures ConnInv(Apply(s, Arrive(hook, now)), l)
      ensures s.conns[l].role.Leader? ==> s.conns[l].role.call < |s.table.heap|
    {
      assert ConnInv(s, l);
      ArriveKeepsConn(s, hook, now, l);
    }
  }

  lemma ArriveKeepsInv(s: System, hook: Hook, now: Time)
    requires Inv(s) && Enabled(s, Arrive(hook, now))
    ensures Inv(Apply(s, Arrive(hook, now)))
  {
    ArriveKeepsTable(s, hook, now);
    ArriveKeepsConns(s, hook, now);
    forall c | 0 <= c < |Apply(s, Arrive(hook, now)).table.heap|
      ensures CallInv(Apply(s, Arrive(hook, now)), c)
    {
      ArriveKeepsCalls(s, hook, now, c);
    }
  }

  lemma DecideKeepsInv(s: System, c: ConnId, response: Response, now: Time)
    requires Inv(s) && Enabled(s, Decide(c, response, now))
    ensures Inv(Apply(s, Decide(c, response, now)))
  {
    var s' := Apply(s, Decide(c, response, now));
    assert ConnInv(s, c);
    forall d | 0 <= d < |s'.table.heap| ensures CallInv(s', d) {
      assert CallInv(s, d);
      var l :| Leads(s, l, d);
      assert Leads(s', l, d);
    }
    forall l | 0 <= l < |s.conns| ensures ConnInv(s', l) {
      assert ConnInv(s, l);
    }
    DecideKeepsSuccession(s, c, response, now);
  }

  lemma DecideKeepsSuccession(s: System, l: ConnId, response: Response, now: Time)
    requires Inv(s) && Enabled(s, Decide(l, response, now))
    ensures Succession(Apply(s, Decide(l, response, now)).table.heap)
  {
    assert ConnInv(s, l);
    if s.conns[l].role.Leader? {
      var d := s.conns[l].role.call;
      assert CallInv(s, d) && !s.table.heap[d].done;
    }
  }

  lemma WakeKeepsInv(s: System, c: ConnId)
    requires Inv(s) && Enabled(s, Wake(c))
    ensures Inv(Apply(s, Wake(c)))
  {
    var s' := Apply(s, Wake(c));
    forall d | 0 <= d < |s'.table.heap| ensures CallInv(s', d) {
      assert CallInv(s, d);
      var l :| Leads(s, l, d);
      assert Leads(s', l, d);
    }
    forall l | 0 <= l < |s.conns| ensures ConnInv(s', l) {
      assert ConnInv(s, l);
    }
  }

  lemma StepKeepsInv(s: System, step: Step)
    requires Inv(s)
    ensures Inv(Apply(s, step))
  {
    if Enabled(s, step) {
      match step
      case Arrive(hook, now) => ArriveKeepsInv(s, hook, now);
      case Decide(c, response, now) => DecideKeepsInv(s, c, response, now);
      case Wake(c) => WakeKeepsInv(s, c);
    }
  }

  lemma {:induction false} RunKeepsInv(s: System, steps: seq<Step>)
    requires Inv(s)
    ensures Inv(RunFrom(s, steps))
    decreases |steps|
  {
    if steps != [] {
      StepKeepsInv(s, steps[0]);
      RunKeepsInv(Apply(s, steps[0]), steps[1..]);
    }
  }

  lemma RunInv(steps: seq<Step>)
    ensures Inv(Run(steps))
  {
    RunKeepsInv(INITIAL, steps);
  }

  // ---------------------------------------------------------------- theorems

  /** Every shared decision has exactly one leader. */
  lemma ExactlyOneLeader(steps: seq<Step>, c: CallId) returns (leader: ConnId)
    requires c < |Run(steps).table.heap|
    ensures Leads(Run(steps), leader, c)
    ensures forall l | Leads(Run(steps), l, c) :: l == leader
  {
    var s := Run(steps);
    RunInv(steps);
    assert CallInv(s, c);
    leader :| Leads(s, leader, c);
  }

  /** Two leaders for one key never overlap: the earlier decision had expired before the
      later question was put. */
  lemma LeadersTakeTurns(steps: seq<Step>, l: ConnId, m: ConnId)
    requires l < m < |Run(steps).conns|
    requires Run(steps).conns[l].role.Leader? && Run(steps).conns[m].role.Leader?
    requires KeyOf(Run(steps).conns[l].hook) == KeyOf(Run(steps).conns[m].hook)
    ensures var heap, c, d := Run(steps).table.heap, Run(steps).conns[l].role.call, Run(steps).conns[m].role.call;
            && c < |heap| && d < |heap| && c != d
            && if c < d then Expired(heap[c], heap[d].born) else Expired(heap[d], heap[c].born)
  {
    var s := Run(steps);
    RunInv(steps);
    assert ConnInv(s, l) && ConnInv(s, m);
  }

  /** Every connection that followed and was answered holds its leader's answer. */
  lemma FollowersAgree(steps: seq<Step>, f: ConnId, leader: ConnId)
    requires f < |Run(steps).conns| && Run(steps).conns[f].role.Follower? && Run(steps).conns[f].response.Some?
    requires Leads(Run(steps), leader, Run(steps).conns[f].role.call)
    ensures Run(steps).conns[leader].response == Run(steps).conns[f].response
    ensures KeyOf(Run(steps).conns[leader].hook) == KeyOf(Run(steps).conns[f].hook)
    ensures QuestionOf(Run(steps).conns[leader].hook) == QuestionOf(Run(steps).conns[f].hook)
  {
    RunInv(steps);
    assert ConnInv(Run(steps), f) && ConnInv(Run(steps), leader);
  }

  /** A follower that still waits either can be woken, or its leader has yet to decide. */
  lemma NoFollowerForgotten(steps: seq<Step>, f: ConnId) returns (leader: ConnId)
    requires f < |Run(steps).conns| && Run(steps).conns[f].role.Follower? && Run(steps).conns[f].response.None?
    ensures Leads(Run(steps), leader, Run(steps).conns[f].role.call)
    ensures Enabled(Run(steps), Wake(f)) <==> Run(steps).conns[leader].response.Some?
    ensures forall response, now | Run(steps).clock <= now ::
      Enabled(Run(steps), Decide(leader, response, now)) <==> !Enabled(Run(steps), Wake(f))
  {
    var s := Run(steps);
    RunInv(steps);
    assert ConnInv(s, f);
    leader := ExactlyOneLeader(steps, s.conns[f].role.call);
    assert ConnInv(s, leader);
  }

  predicate Live(s: System, now: Time, c: CallId) {
    c < |s.table.heap| && !Expired(s.table.heap[c], now)
  }

  function LiveCalls(s: System, now: Time): set<CallId> {
    set c | 0 <= c < |s.table.heap| && Live(s, now, c)
  }

  /** The purged table holds exactly the live calls: nothing undecided or unexpired is lost. */
  lemma PurgedIsLive(s: System, now: Time)
    requires Inv(s) && s.clock <= now
    ensures forall c: CallId ::
      Live(s, now, c) <==>
        && c < |s.table.heap| && s.table.heap[c].key in Purged(s.table, now)
        && Purged(s.table, now)[s.table.heap[c].key] == c
    ensures |Purged(s.table, now)| == |LiveCalls(s, now)|
  {
    var calls := Purged(s.table, now);
    forall c: CallId | Live(s, now, c) ensures s.table.heap[c].key in calls && calls[s.table.heap[c].key] == c {
      assert CallInv(s, c);
    }
    InjectiveImage(calls, LiveCalls(s, now));
  }

  lemma {:induction false} InjectiveImage<K, V>(m: map<K, V>, image: set<V>)
    requires forall k, l | k in m && l in m && m[k] == m[l] :: k == l
    requires forall c :: c in image <==> exists k :: k in m && m[k] == c
    ensures |m| == |image|
    decreases |m|
  {
    if m == map[] {
      assert image == {};
    } else {
      var k :| k in m;
      var rest := m - {k};
      assert |rest| == |m| - 1 by {
        assert rest.Keys == m.Keys - {k};
        assert |rest.Keys| == |rest| && |m.Keys| == |m|;
      }
      forall c ensures c in image - {m[k]} <==> exists l :: l in rest && rest[l] == c {
        if c in image - {m[k]} {
          var l :| l in m && m[l] == c;
          assert l in rest && rest[l] == c;
        }
        if l :| l in rest && rest[l] == c {
          assert l in m && m[l] == c;
        }
      }
      InjectiveImage(rest, image - {m[k]});
      assert m[k] in image;
    }
  }

  /** What a connection with an invocation id becomes, in terms of the history: it follows
      the live call of its key if that asks the same question, is refused if it asks
      another, leads if there is none, and is refused if ten thousand are live. */
  lemma JoinOutcome(steps: seq<Step>, hook: Hook, now: Time)
    requires Run(steps).clock <= now && hook.toolUse != "" && !hook.input.Malformed?
    ensures Run(steps).table.WellFormed()
    ensures forall c: CallId | Live(Run(steps), now, c) && Run(steps).table.heap[c].key == KeyOf(hook) ::
      JoinRegion(Run(steps).table, hook, now).1
        == if Run(steps).table.heap[c].question == QuestionOf(hook) then Follower(c) else Refused
    ensures (forall c: CallId | Live(Run(steps), now, c) :: Run(steps).table.heap[c].key != KeyOf(hook)) ==>
      JoinRegion(Run(steps).table, hook, now).1
        == if |LiveCalls(Run(steps), now)| < CAPACITY then Leader(|Run(steps).table.heap|) else Refused
  {
    var s := Run(steps);
    RunInv(steps);
    PurgedIsLive(s, now);
    var calls := Purged(s.table, now);
    if KeyOf(hook) in calls {
      assert Live(s, now, calls[KeyOf(hook)]);
    }
  }

  /** An undecided call is never evicted, and no call is before it expires. */
  lemma LiveStaysListed(steps: seq<Step>, c: CallId)
    requires c < |Run(steps).table.heap|
    requires !Run(steps).table.heap[c].done || !Expired(Run(steps).table.heap[c], Run(steps).clock)
    ensures Listed(Run(steps).table, c)
  {
    RunInv(steps);
    assert CallInv(Run(steps), c);
  }

  lemma NeverOverCapacity(steps: seq<Step>)
    ensures |Run(steps).table.calls| <= CAPACITY
  {
    RunInv(steps);
  }

  lemma DecidedStep(s: System, step: Step, c: CallId)
    requires Inv(s) && c < |s.table.heap| && s.table.heap[c].done
    ensures c < |Apply(s, step).table.heap| && Apply(s, step).table.heap[c] == s.table.heap[c]
  {
    if Enabled(s, step) && step.Decide? {
      assert ConnInv(s, step.conn);
    }
  }

  /** A published decision never changes, however the run goes on. */
  lemma {:induction false} DecidedForGood(s: System, steps: seq<Step>, c: CallId)
    requires Inv(s) && c < |s.table.heap| && s.table.heap[c].done
    ensures c < |RunFrom(s, steps).table.heap| && RunFrom(s, steps).table.heap[c] == s.table.heap[c]
    decreases |steps|
  {
    if steps != [] {
      StepKeepsInv(s, steps[0]);
      DecidedStep(s, steps[0], c);
      DecidedForGood(Apply(s, steps[0]), steps[1..], c);
    }
  }

  // ---------------------------------------------------------------- the table object

  /** The part of the server the coalescing regions work on. */
  class CallTable {
    var calls: map<Key, CallId>
    var heap: seq<Call>

    ghost function View(): Table
      reads this
    {
      Table(calls, heap)
    }

    constructor ()
      ensures View() == INITIAL.table
    {
      calls := map[];
      heap := [];
    }

    method Purge(now: Time)
      requires View().WellFormed()
      modifies this`calls
      ensures calls == Purged(old(View()), now)
    {
      var todo := calls.Keys;
      while todo != {}
        invariant todo <= calls.Keys <= old(calls).Keys
        invariant forall k | k in calls :: calls[k] == old(calls)[k]
        invariant forall k | k in old(calls) && k !in todo :: k in calls <==> !Expired(heap[old(calls)[k]], now)
        decreases todo
      {
        var k :| k in todo;
        todo := todo - {k};
        var call := heap[calls[k]];
        if call.expires.Some? && !(now < call.expires.value) {
          calls := calls - {k};
        }
      }
    }

    /** Join the call of the hook's invocation, or open it. */
    method JoinToolCall(hook: Hook, now: Time) returns (role: Role)
      requires View().WellFormed()
      modifies this
      ensures View().WellFormed()
      ensures (View(), role) == JoinRegion(old(View()), hook, now)
    {
      if hook.toolUse == "" {
        return Independent;
      }
      if hook.input.Malformed? {
        return Refused;
      }
      var key := KeyOf(hook);
      Purge(now);
      if key in calls {
        role := if heap[calls[key]].question != QuestionOf(hook) then Refused else Follower(calls[key]);
        return;
      }
      if |calls| >= CAPACITY {
        return Refused;
      }
      role := Leader(|heap|);
      calls := calls[key := |heap|];
      heap := heap + [FreshCall(hook, now)];
    }

    /** Publish the leader's decision to everyone who waits for it. */
    method CompleteToolCall(c: CallId, response: Response, now: Time)
      requires View().WellFormed() && c < |heap|
      modifies this`heap
      ensures View().WellFormed()
      ensures View() == CompleteRegion(old(View()), c, response, now)
    {
      heap := heap[c := heap[c].(response := response)];
      heap := heap[c := heap[c].(expires := Some(now + LIFETIME))];
      heap := heap[c := heap[c].(done := true)];
      assert heap == old(heap)[c := Completed(old(heap)[c], response, now)];
    }
  }
}
