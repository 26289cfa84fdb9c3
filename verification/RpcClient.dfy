/**
 The JSON-RPC client of the Codex app server.

 A call registers a one-slot channel under its id, writes the request and waits.  The read
 loop hands each reply to the channel registered under its id; when the connection ends,
 whoever notices first fails all registered calls and then raises the done signal.

 A step is one locked region, one channel operation or one outcome of a write.  A run is
 any sequence of steps; a step that is not enabled changes nothing.
 */
module RpcClient {
  import opened Common

  type CallId = nat

  datatype RequestId = Text(value: string) | Number(digits: string)

  datatype Message = Reply(id: RequestId, payload: string) | ConnectionError(error: string)

  datatype Outcome =
    | Delivered(message: Message)
    | Closed
    | Cancelled
    | WriteFailed(error: string)

  datatype Pc =
    | Fresh
    | Writing
    | Failing(error: string)
    | Polling
    | Waiting
    | SawDone
    | Removing(outcome: Outcome)
    | Returned(outcome: Outcome)

  /** A call; `sent` counts the messages its channel was ever given. */
  datatype Call = Call(pc: Pc, channel: seq<Message>, sent: nat)

  /** The read loop, between taking a channel from the table and sending to it. */
  datatype Reader = Idle | Sending(call: CallId, reply: Message)

  /** The once-only failing of all calls. */
  datatype Failure = NotStarted | Draining(todo: set<CallId>, error: string) | Over

  datatype System = System(
    calls: seq<Call>,
    pending: map<string, CallId>,
    reader: Reader,
    failure: Failure)

  datatype Step =
    | Begin
    | Enter(call: CallId)
    | WriteRefused(call: CallId)
    | WriteOk(call: CallId)
    | WriteError(call: CallId, error: string)
    | WriteErrorDone(call: CallId)
    | FirstLook(call: CallId)
    | Receive(call: CallId)
    | Cancel(call: CallId)
    | SeeDone(call: CallId)
    | LastLook(call: CallId)
    | Remove(call: CallId)
    | ReadReply(id: RequestId, payload: string)
    | ReadSend
    | Fail(error: string)
    | FailSend(call: CallId)
    | FailDone

  const INITIAL := System([], map[], Idle, NotStarted)

  // ---------------------------------------------------------------- keys

  function KeyOf(id: RequestId): string {
    match id
    case Text(value) => "s:" + value
    case Number(digits) => "n:" + digits
  }

  /** The id of the n-th call; the counter starts at one. */
  function CallRequest(c: CallId): RequestId {
    Number(Decimal(c + 1))
  }

  function CallKey(c: CallId): string {
    KeyOf(CallRequest(c))
  }

  /** Ids of different kinds or values never share a key, so calls never do. */
  lemma KeysDiffer(a: RequestId, b: RequestId)
    ensures KeyOf(a) == KeyOf(b) ==> a == b
  {
    if KeyOf(a) == KeyOf(b) {
      assert KeyOf(a)[0] == KeyOf(b)[0];
      assert KeyOf(a)[2..] == KeyOf(b)[2..];
      match a
      case Text(value) => assert KeyOf(a)[2..] == value;
      case Number(digits) => assert KeyOf(a)[2..] == digits;
    }
  }

  lemma CallKeysDiffer(c: CallId, d: CallId)
    ensures CallKey(c) == CallKey(d) ==> c == d
  {
    KeysDiffer(CallRequest(c), CallRequest(d));
    if CallKey(c) == CallKey(d) {
      DecimalInjective(c + 1, d + 1);
    }
  }

  // ---------------------------------------------------------------- the steps

  predicate Done(s: System) {
    s.failure.Over?
  }

  predicate Enabled(s: System, step: Step) {
    match step
    case Begin => true
    case Enter(c) => c < |s.calls| && s.calls[c].pc.Fresh?
    case WriteRefused(c) => c < |s.calls| && s.calls[c].pc.Writing? && Done(s)
    case WriteOk(c) => c < |s.calls| && s.calls[c].pc.Writing?
    case WriteError(c, _) => c < |s.calls| && s.calls[c].pc.Writing?
    case WriteErrorDone(c) => c < |s.calls| && s.calls[c].pc.Failing? && Done(s)
    case FirstLook(c) => c < |s.calls| && s.calls[c].pc.Polling?
    case Receive(c) => c < |s.calls| && s.calls[c].pc.Waiting? && s.calls[c].channel != []
    case Cancel(c) => c < |s.calls| && s.calls[c].pc.Waiting?
    case SeeDone(c) => c < |s.calls| && s.calls[c].pc.Waiting? && Done(s)
    case LastLook(c) => c < |s.calls| && s.calls[c].pc.SawDone?
    case Remove(c) => c < |s.calls| && s.calls[c].pc.Removing?
    case ReadReply(_, _) => s.reader.Idle?
    case ReadSend => s.reader.Sending? && s.reader.call < |s.calls|
    case Fail(_) => true
    case FailSend(c) => s.failure.Draining? && c in s.failure.todo && c < |s.calls|
    case FailDone => s.failure.Draining? && s.failure.todo == {}
  }

  function Moved(s: System, c: CallId, pc: Pc): System
    requires c < |s.calls|
  {
    s.(calls := s.calls[c := s.calls[c].(pc := pc)])
  }

  /** Take the message out of the channel and return it. */
  function Took(s: System, c: CallId): System
    requires c < |s.calls| && s.calls[c].channel != []
  {
    s.(calls := s.calls[c := s.calls[c].(pc := Returned(Delivered(s.calls[c].channel[0])),
      channel := s.calls[c].channel[1..])])
  }

  function Sent(s: System, c: CallId, m: Message): System
    requires c < |s.calls|
  {
    s.(calls := s.calls[c := s.calls[c].(channel := s.calls[c].channel + [m], sent := s.calls[c].sent + 1)])
  }

  /** The first to fail the calls takes the whole table. */
  function StartFailing(s: System, error: string): System {
    if s.failure.NotStarted? then s.(pending := map[], failure := Draining(s.pending.Values, error)) else s
  }

  /** The read loop takes the channel registered under the reply's id, if there is one. */
  function TakeFor(s: System, id: RequestId, payload: string): System {
    if KeyOf(id) in s.pending then
      s.(pending := s.pending - {KeyOf(id)}, reader := Sending(s.pending[KeyOf(id)], Reply(id, payload)))
    else s
  }

  function Apply(s: System, step: Step): System {
    if !Enabled(s, step) then s else
      match step
      case Begin => s.(calls := s.calls + [Call(Fresh, [], 0)])
      case Enter(c) => Moved(s, c, Writing).(pending := s.pending[CallKey(c) := c])
      case WriteRefused(c) => Moved(s, c, Removing(Closed))
      case WriteOk(c) => Moved(s, c, Polling)
      case WriteError(c, error) => Moved(StartFailing(s, error), c, Failing(error))
      case WriteErrorDone(c) => Moved(s, c, Removing(WriteFailed(s.calls[c].pc.error)))
      case FirstLook(c) => if s.calls[c].channel != [] then Took(s, c) else Moved(s, c, Waiting)
      case Receive(c) => Took(s, c)
      case Cancel(c) => Moved(s, c, Removing(Cancelled))
      case SeeDone(c) => Moved(s, c, SawDone)
      case LastLook(c) => if s.calls[c].channel != [] then Took(s, c) else Moved(s, c, Removing(Closed))
      case Remove(c) => Moved(s, c, Returned(s.calls[c].pc.outcome)).(pending := s.pending - {CallKey(c)})
      case ReadReply(id, payload) => TakeFor(s, id, payload)
      case ReadSend => Sent(s, s.reader.call, s.reader.reply).(reader := Idle)
      case Fail(error) => StartFailing(s, error)
      case FailSend(c) =>
        Sent(s, c, ConnectionError(s.failure.error)).(failure := s.failure.(todo := s.failure.todo - {c}))
      case FailDone => s.(failure := Over)
  }

  function RunFrom(s: System, steps: seq<Step>): System
    decreases |steps|
  {
    if steps == [] then s else RunFrom(Apply(s, steps[0]), steps[1..])
  }

  function Run(steps: seq<Step>): System {
    RunFrom(INITIAL, steps)
  }

  // ---------------------------------------------------------------- the invariant

  predicate IsPending(s: System, c: CallId) {
    CallKey(c) in s.pending
  }

  predicate BeingSent(s: System, c: CallId) {
    s.reader.Sending? && s.reader.call == c
  }

  predicate BeingFailed(s: System, c: CallId) {
    s.failure.Draining? && c in s.failure.todo
  }

  /** The claims on a call's channel: at most one party may ever send to it. */
  function Claims(s: System, c: CallId): nat
    requires c < |s.calls|
  {
    (if IsPending(s, c) then 1 else 0) + (if BeingSent(s, c) then 1 else 0)
    + (if BeingFailed(s, c) then 1 else 0) + s.calls[c].sent
  }

  predicate Answers(m: Message, c: CallId) {
    m.Reply? ==> m.id == CallRequest(c)
  }

  /** The call has entered and may still take its message. */
  predicate Live(pc: Pc) {
    pc.Writing? || pc.Failing? || pc.Polling? || pc.Waiting? || pc.SawDone? || pc.Removing?
  }

  predicate CallInv(s: System, c: CallId)
    requires c < |s.calls|
  {
    var call := s.calls[c];
    && Claims(s, c) <= 1
    && (call.pc.Fresh? ==> Claims(s, c) == 0)
    && (Live(call.pc) ==> Claims(s, c) == 1 && |call.channel| == call.sent)
    && (call.pc.Returned? ==> !IsPending(s, c))
    && (call.pc.Removing? ==> !call.pc.outcome.Delivered?)
    && |call.channel| <= call.sent
    && (forall i | 0 <= i < |call.channel| :: Answers(call.channel[i], c))
    && (call.pc.Returned? && call.pc.outcome.Delivered? ==> Answers(call.pc.outcome.message, c))
  }

  ghost predicate TableInv(s: System) {
    && (forall k | k in s.pending :: s.pending[k] < |s.calls| && k == CallKey(s.pending[k]))
    && (s.reader.Sending? ==>
          s.reader.call < |s.calls| && s.reader.reply.Reply? && Answers(s.reader.reply, s.reader.call))
    && (s.failure.Draining? ==> forall c | c in s.failure.todo :: c < |s.calls|)
  }

  ghost predicate Inv(s: System) {
    TableInv(s) && forall c | 0 <= c < |s.calls| :: CallInv(s, c)
  }

  lemma StepKeepsTable(s: System, step: Step)
    requires Inv(s) && Enabled(s, step)
    ensures TableInv(Apply(s, step))
  {
    match step
    case ReadReply(id, payload) =>
      if KeyOf(id) in s.pending {
        KeysDiffer(id, CallRequest(s.pending[KeyOf(id)]));
      }
    case _ =>
  }

  /** What the other calls see of a step on one call: nothing. */
  lemma OwnStepKeepsCall(s: System, step: Step, c: CallId)
    requires Inv(s) && Enabled(s, step) && c < |s.calls|
    requires step.Enter? || step.Remove?
    ensures CallInv(Apply(s, step), c)
  {
    assert CallInv(s, c);
    CallKeysDiffer(c, step.call);
    CallKeysDiffer(step.call, c);
  }

  lemma ReadReplyKeepsCall(s: System, id: RequestId, payload: string, c: CallId)
    requires Inv(s) && Enabled(s, ReadReply(id, payload)) && c < |s.calls|
    ensures CallInv(Apply(s, ReadReply(id, payload)), c)
  {
    assert CallInv(s, c);
    if KeyOf(id) in s.pending {
      CallKeysDiffer(c, s.pending[KeyOf(id)]);
    }
  }

  lemma FailKeepsCall(s: System, error: string, c: CallId)
    requires Inv(s) && c < |s.calls|
    ensures CallInv(StartFailing(s, error), c)
  {
    assert CallInv(s, c);
    PendingIsRegistered(s, c);
  }

  lemma PendingIsRegistered(s: System, c: CallId)
    requires TableInv(s)
    ensures IsPending(s, c) <==> c in s.pending.Values
  {
    if IsPending(s, c) {
      CallKeysDiffer(c, s.pending[CallKey(c)]);
    }
  }

  lemma SendKeepsCall(s: System, step: Step, c: CallId)
    requires Inv(s) && Enabled(s, step) && c < |s.calls| && (step.ReadSend? || step.FailSend? || step.FailDone?)
    ensures CallInv(Apply(s, step), c)
  {
    assert CallInv(s, c);
    if step.ReadSend? {
      assert CallInv(s, s.reader.call);
    } else if step.FailSend? {
      assert CallInv(s, step.call);
    }
  }

  lemma LocalStepKeepsCall(s: System, step: Step, c: CallId)
    requires Inv(s) && Enabled(s, step) && c < |s.calls|
    requires step.WriteRefused? || step.WriteOk? || step.WriteErrorDone? || step.FirstLook? || step.Receive?
      || step.Cancel? || step.SeeDone? || step.LastLook?
    ensures CallInv(Apply(s, step), c)
  {
    assert CallInv(s, c);
  }

  lemma WriteErrorKeepsCall(s: System, c: CallId, error: string, d: CallId)
    requires Inv(s) && Enabled(s, WriteError(c, error)) && d < |s.calls|
    ensures CallInv(Apply(s, WriteError(c, error)), d)
  {
    FailKeepsCall(s, error, d);
    assert CallInv(s, d);
  }

  lemma BeginKeepsCall(s: System, c: CallId)
    requires Inv(s) && c <= |s.calls|
    ensures CallInv(Apply(s, Begin), c)
  {
    if c < |s.calls| {
      assert CallInv(s, c);
    } else if IsPending(s, c) {
      CallKeysDiffer(c, s.pending[CallKey(c)]);
    }
  }

  lemma StepKeepsInv(s: System, step: Step)
    requires Inv(s)
    ensures Inv(Apply(s, step))
  {
    if Enabled(s, step) {
      StepKeepsTable(s, step);
      forall c | 0 <= c < |Apply(s, step).calls| ensures CallInv(Apply(s, step), c) {
        match step
        case Begin => BeginKeepsCall(s, c);
        case Enter(_) => OwnStepKeepsCall(s, step, c);
        case Remove(_) => OwnStepKeepsCall(s, step, c);
        case ReadReply(id, payload) => ReadReplyKeepsCall(s, id, payload, c);
        case Fail(error) => FailKeepsCall(s, error, c);
        case WriteError(d, error) => WriteErrorKeepsCall(s, d, error, c);
        case ReadSend => SendKeepsCall(s, step, c);
        case FailSend(_) => SendKeepsCall(s, step, c);
        case FailDone => SendKeepsCall(s, step, c);
        case _ => LocalStepKeepsCall(s, step, c);
      }
    }
  }

  lemma {:induction false} RunKeepsInv(s: System, steps: seq<Step>)
    requires Inv(s)
    ensures Inv(RunFrom(s, steps))
    decreases |steps|
  {
    if steps != [] {
      StepKeepsInv(s, steps[0]);
      RunKeepsInv(Apply(s, steps[0]), steps[1..]);
    }
  }

  // ---------------------------------------------------------------- theorems

  /** Each channel is given at most one message over the whole run, so a send always finds
      its slot free and never blocks. */
  lemma SendNeverBlocks(steps: seq<Step>)
    ensures forall c | 0 <= c < |Run(steps).calls| :: Run(steps).calls[c].sent <= 1
    ensures Run(steps).reader.Sending? ==>
      Run(steps).reader.call < |Run(steps).calls| && Run(steps).calls[Run(steps).reader.call].channel == []
    ensures Run(steps).failure.Draining? ==> forall c | c in Run(steps).failure.todo ::
      c < |Run(steps).calls| && Run(steps).calls[c].channel == []
  {
    RunKeepsInv(INITIAL, steps);
    var s := Run(steps);
    forall c | 0 <= c < |s.calls|
      ensures s.calls[c].sent <= 1
      ensures BeingSent(s, c) || BeingFailed(s, c) ==> s.calls[c].channel == []
    {
      assert CallInv(s, c);
    }
    assert s.reader.Sending? ==> BeingSent(s, s.reader.call);
    assert s.failure.Draining? ==> forall c | c in s.failure.todo :: BeingFailed(s, c);
  }

  /** A call that returns a reply returns the reply to its own id. */
  lemma ReplyReachesItsCall(steps: seq<Step>, c: CallId)
    requires c < |Run(steps).calls| && Run(steps).calls[c].pc.Returned?
    requires Run(steps).calls[c].pc.outcome.Delivered? && Run(steps).calls[c].pc.outcome.message.Reply?
    ensures Run(steps).calls[c].pc.outcome.message.id == CallRequest(c)
  {
    RunKeepsInv(INITIAL, steps);
    assert CallInv(Run(steps), c);
  }

  /** Once a call has returned, its id is not registered, however it ended. */
  lemma ReturnedIsForgotten(steps: seq<Step>, c: CallId)
    requires c < |Run(steps).calls| && Run(steps).calls[c].pc.Returned?
    ensures CallKey(c) !in Run(steps).pending
  {
    RunKeepsInv(INITIAL, steps);
    assert CallInv(Run(steps), c);
  }

  /** A waiting call always has something to wait for: its message is in its channel or being
      sent, it is registered, or the connection is being failed for it. */
  lemma NobodyWaitsInVain(steps: seq<Step>, c: CallId)
    requires c < |Run(steps).calls| && Run(steps).calls[c].pc.Waiting? && Run(steps).calls[c].channel == []
    ensures IsPending(Run(steps), c) || BeingSent(Run(steps), c) || BeingFailed(Run(steps), c)
  {
    RunKeepsInv(INITIAL, steps);
    assert CallInv(Run(steps), c);
  }

  lemma {:induction false} RunTogether(s: System, steps: seq<Step>, more: seq<Step>)
    ensures RunFrom(s, steps + more) == RunFrom(RunFrom(s, steps), more)
    decreases |steps|
  {
    if steps == [] {
      assert steps + more == more;
    } else {
      assert (steps + more)[1..] == steps[1..] + more;
      RunTogether(Apply(s, steps[0]), steps[1..], more);
    }
  }

  /** The failing of all calls comes to its end, and moves nobody. */
  lemma {:induction false} FailureEnds(s: System) returns (more: seq<Step>)
    requires Inv(s) && !s.failure.NotStarted?
    ensures forall i | 0 <= i < |more| :: more[i].FailSend? || more[i].FailDone?
    ensures Done(RunFrom(s, more)) && |RunFrom(s, more).calls| == |s.calls|
    ensures forall c | 0 <= c < |s.calls| :: RunFrom(s, more).calls[c].pc == s.calls[c].pc
    decreases s.failure.Draining?, if s.failure.Draining? then s.failure.todo else {}
  {
    if Done(s) {
      more := [];
    } else {
      var step := if s.failure.todo == {} then FailDone else var c :| c in s.failure.todo; FailSend(c);
      StepKeepsInv(s, step);
      var rest := FailureEnds(Apply(s, step));
      more := [step] + rest;
      assert more[1..] == rest;
    }
  }

  /** The end of the connection frees every call that waits: once it has been noticed, the
      call can return whatever the read loop, its caller and the other calls do or do not do. */
  lemma FailureFreesCalls(steps: seq<Step>, c: CallId, error: string) returns (more: seq<Step>)
    requires c < |Run(steps).calls| && Run(steps).calls[c].pc.Waiting?
    ensures forall i | 0 <= i < |more| ::
      more[i].Fail? || more[i].FailSend? || more[i].FailDone? || more[i] in [SeeDone(c), LastLook(c), Remove(c)]
    ensures c < |Run(steps + more).calls| && Run(steps + more).calls[c].pc.Returned?
    ensures Run(steps + more).calls[c].pc.outcome.Delivered? || Run(steps + more).calls[c].pc.outcome.Closed?
  {
    hide Apply, RunFrom, Inv;
    RunKeepsInv(INITIAL, steps);
    var fail := FailureOf(Run(steps), error);
    var leave := [SeeDone(c), LastLook(c), Remove(c)];
    more := fail + leave;
    RunTogether(Run(steps), fail, leave);
    RunTogether(INITIAL, steps, more);
    LastThreeSteps(RunFrom(Run(steps), fail), c);
  }

  /** Somebody notices the end of the connection, or has noticed it before, and all is failed. */
  lemma FailureOf(s: System, error: string) returns (more: seq<Step>)
    requires Inv(s)
    ensures forall i | 0 <= i < |more| :: more[i].Fail? || more[i].FailSend? || more[i].FailDone?
    ensures Done(RunFrom(s, more)) && |RunFrom(s, more).calls| == |s.calls|
    ensures forall c | 0 <= c < |s.calls| :: RunFrom(s, more).calls[c].pc == s.calls[c].pc
  {
    StepKeepsInv(s, Fail(error));
    var rest := FailureEnds(Apply(s, Fail(error)));
    more := [Fail(error)] + rest;
    assert more[1..] == rest;
  }

  lemma LastThreeSteps(s: System, c: CallId)
    requires c < |s.calls| && s.calls[c].pc.Waiting? && Done(s)
    ensures var s' := RunFrom(s, [SeeDone(c), LastLook(c), Remove(c)]);
            && c < |s'.calls| && s'.calls[c].pc.Returned?
            && (s'.calls[c].pc.outcome.Delivered? || s'.calls[c].pc.outcome.Closed?)
  {
    assert [SeeDone(c), LastLook(c), Remove(c)][1..] == [LastLook(c), Remove(c)];
    assert [LastLook(c), Remove(c)][1..] == [Remove(c)];
    Unfold(s, [SeeDone(c), LastLook(c), Remove(c)]);
    Unfold(Apply(s, SeeDone(c)), [LastLook(c), Remove(c)]);
    Unfold(Apply(Apply(s, SeeDone(c)), LastLook(c)), [Remove(c)]);
  }

  /** The request is written, the call waits, and this message is in its channel. */
  predicate Holds(s: System, c: CallId, m: Message) {
    && c < |s.calls| && s.calls[c].channel == [m]
    && (s.calls[c].pc.Polling? || s.calls[c].pc.Waiting? || s.calls[c].pc.SawDone?)
  }

  /** The call got this message, or its caller gave up; it is not told the connection closed. */
  predicate GotOrGaveUp(s: System, c: CallId, m: Message) {
    && c < |s.calls|
    && (|| s.calls[c].pc == Returned(Delivered(m))
        || s.calls[c].pc == Removing(Cancelled)
        || s.calls[c].pc == Returned(Cancelled))
  }

  lemma HeldAfterStep(s: System, step: Step, c: CallId, m: Message)
    requires Inv(s) && (Holds(s, c, m) || GotOrGaveUp(s, c, m))
    ensures Holds(Apply(s, step), c, m) || GotOrGaveUp(Apply(s, step), c, m)
  {
    assert CallInv(s, c);
  }

  /** A message that is in the channel of a written call is never reported as a closed
      connection, whenever the connection ends and however the run goes on. */
  lemma {:induction false} ReplyIsNotLost(s: System, steps: seq<Step>, c: CallId, m: Message)
    requires Inv(s) && (Holds(s, c, m) || GotOrGaveUp(s, c, m))
    ensures Holds(RunFrom(s, steps), c, m) || GotOrGaveUp(RunFrom(s, steps), c, m)
    ensures RunFrom(s, steps).calls[c].pc != Removing(Closed) && RunFrom(s, steps).calls[c].pc != Returned(Closed)
    decreases |steps|
  {
    if steps != [] {
      StepKeepsInv(s, steps[0]);
      HeldAfterStep(s, steps[0], c, m);
      ReplyIsNotLost(Apply(s, steps[0]), steps[1..], c, m);
    }
  }

  /** Once the connection is done, a call that holds a message can be told the connection is
      closed exactly if its request has not been written yet. */
  lemma ClosedOnlyBeforeWriting(s: System, step: Step, c: CallId)
    requires Inv(s) && Done(s) && c < |s.calls| && s.calls[c].channel != []
    requires s.calls[c].pc != Removing(Closed)
    ensures Apply(s, step).calls[c].pc == Removing(Closed) <==> s.calls[c].pc.Writing? && step == WriteRefused(c)
  {
    assert CallInv(s, c);
  }

  /** Such a run: a reply nobody asked for yet arrives, the connection ends, and the call is
      told it is closed. */
  lemma UnaskedReplyIsLost(payload: string, error: string) returns (steps: seq<Step>)
    ensures Done(Run(steps)) && |Run(steps).calls| == 1
    ensures Run(steps).calls[0] == Call(Returned(Closed), [Reply(CallRequest(0), payload)], 1)
  {
    hide CallRequest, RunFrom, Apply;
    var c: CallId := 0;
    UnaskedReplyArrives(c, payload);
    ConnectionEnds(c, [Reply(CallRequest(c), payload)], error);
    var early := [Begin, Enter(c), ReadReply(CallRequest(c), payload), ReadSend];
    steps := early + [Fail(error), FailDone, WriteRefused(c), Remove(c)];
    RunTogether(INITIAL, early, [Fail(error), FailDone, WriteRefused(c), Remove(c)]);
  }

  lemma UnaskedReplyArrives(c: CallId, payload: string)
    requires c == 0
    ensures Run([Begin, Enter(c), ReadReply(CallRequest(c), payload), ReadSend])
      == System([Call(Writing, [Reply(CallRequest(c), payload)], 1)], map[], Idle, NotStarted)
  {
    var reply := ReadReply(CallRequest(c), payload);
    FourSteps(INITIAL, Begin, Enter(c), reply, ReadSend);
    var entered := Apply(Apply(INITIAL, Begin), Enter(c));
    assert entered == System([Call(Writing, [], 0)], map[CallKey(c) := c], Idle, NotStarted);
    var taken := Apply(entered, reply);
    assert taken == System([Call(Writing, [], 0)], map[], Sending(c, Reply(CallRequest(c), payload)), NotStarted);
    var channel := [Reply(CallRequest(c), payload)];
    assert taken.calls[c].channel + channel == channel;
    assert Apply(taken, ReadSend).calls == [Call(Writing, channel, 1)];
  }

  lemma ConnectionEnds(c: CallId, channel: seq<Message>, error: string)
    requires c == 0
    ensures RunFrom(System([Call(Writing, channel, 1)], map[], Idle, NotStarted),
      [Fail(error), FailDone, WriteRefused(c), Remove(c)])
      == System([Call(Returned(Closed), channel, 1)], map[], Idle, Over)
  {
    var s := System([Call(Writing, channel, 1)], map[], Idle, NotStarted);
    FourSteps(s, Fail(error), FailDone, WriteRefused(c), Remove(c));
    assert s.pending.Values == {};
    var over := Apply(Apply(s, Fail(error)), FailDone);
    assert over == System([Call(Writing, channel, 1)], map[], Idle, Over);
    assert over.pending - {CallKey(c)} == map[];
  }

  lemma FourSteps(s: System, a: Step, b: Step, c: Step, d: Step)
    ensures RunFrom(s, [a, b, c, d]) == Apply(Apply(Apply(Apply(s, a), b), c), d)
  {
    assert [a, b, c, d][1..] == [b, c, d] && [b, c, d][1..] == [c, d] && [c, d][1..] == [d];
    Unfold(s, [a, b, c, d]);
    Unfold(Apply(s, a), [b, c, d]);
    Unfold(Apply(Apply(s, a), b), [c, d]);
    Unfold(Apply(Apply(Apply(s, a), b), c), [d]);
  }

  lemma Unfold(s: System, steps: seq<Step>)
    requires steps != []
    ensures RunFrom(s, steps) == RunFrom(Apply(s, steps[0]), steps[1..])
  {
  }

  // ---------------------------------------------------------------- the client object

  /** A step the goroutine of call `c` takes itself. */
  predicate OwnStep(step: Step, c: CallId) {
    || step == Enter(c) || step == WriteRefused(c) || step == WriteOk(c) || step == WriteErrorDone(c)
    || (step.WriteError? && step.call == c) || step == FirstLook(c) || step == Receive(c) || step == Cancel(c)
    || step == SeeDone(c) || step == LastLook(c) || step == Remove(c)
  }

  lemma OthersLeaveCallAlone(s: System, step: Step, c: CallId)
    requires Inv(s) && c < |s.calls| && !OwnStep(step, c)
    ensures c < |Apply(s, step).calls| && Apply(s, step).calls[c].pc == s.calls[c].pc
  {
  }

  /** A call whose channel has been given the error of the connection. */
  function FailedCall(call: Call, error: string): Call {
    call.(channel := [ConnectionError(error)], sent := 1)
  }

  /** The client: the table of registered calls, and for each goroutine how far it has come. */
  class Client {
    var calls: seq<Call>
    var pending: map<string, CallId>
    var reader: Reader
    var failure: Failure

    function View(): System
      reads this
    {
      System(calls, pending, reader, failure)
    }

    ghost predicate Valid()
      reads this
    {
      Inv(View())
    }

    constructor ()
      ensures Valid() && View() == INITIAL
    {
      calls, pending, reader, failure := [], map[], Idle, NotStarted;
    }

    /** Give a new call an id that is not in use, and an empty channel. */
    method NewCall() returns (c: CallId)
      requires Valid()
      modifies this`calls
      ensures Valid() && View() == Apply(old(View()), Begin)
      ensures c == |old(calls)| && c < |calls| && calls[c].channel == [] && !IsPending(View(), c)
    {
      StepKeepsInv(View(), Begin);
      c := |calls|;
      calls := calls + [Call(Fresh, [], 0)];
      assert CallInv(View(), c);
    }

    /** Register a call: it can be found under its id, and no other registration is lost. */
    method Register(c: CallId)
      requires Valid() && Enabled(View(), Enter(c))
      modifies this`calls, this`pending
      ensures Valid() && View() == Apply(old(View()), Enter(c))
      ensures forall d: CallId :: IsPending(View(), d) <==> d == c || old(IsPending(View(), d))
    {
      StepKeepsInv(View(), Enter(c));
      forall d: CallId ensures CallKey(d) == CallKey(c) ==> d == c {
        CallKeysDiffer(d, c);
      }
      pending := pending[CallKey(c) := c];
      calls := calls[c := calls[c].(pc := Writing)];
    }

    /** Unregister a call that is about to return, and no other. */
    method RemovePending(c: CallId)
      requires Valid() && Enabled(View(), Remove(c))
      modifies this`calls, this`pending
      ensures Valid() && View() == Apply(old(View()), Remove(c))
      ensures forall d: CallId :: IsPending(View(), d) <==> d != c && old(IsPending(View(), d))
    {
      StepKeepsInv(View(), Remove(c));
      forall d: CallId ensures CallKey(d) == CallKey(c) ==> d == c {
        CallKeysDiffer(d, c);
      }
      pending := pending - {CallKey(c)};
      calls := calls[c := calls[c].(pc := Returned(calls[c].pc.outcome))];
    }

    /** The read loop takes the call of a reply out of the table: the registered call with
        exactly this id, whose channel is free, or none. */
    method TakePending(id: RequestId, payload: string) returns (found: Option<CallId>)
      requires Valid() && reader.Idle?
      modifies this`pending, this`reader
      ensures Valid() && View() == Apply(old(View()), ReadReply(id, payload))
      ensures found.Some? ==>
        found.value < |calls| && CallRequest(found.value) == id && calls[found.value].channel == []
      ensures found.None? ==> forall d: CallId | IsPending(View(), d) :: CallRequest(d) != id
      ensures forall d: CallId :: IsPending(View(), d) <==> found != Some(d) && old(IsPending(View(), d))
    {
      hide KeyOf, CallRequest;
      StepKeepsInv(View(), ReadReply(id, payload));
      if KeyOf(id) !in pending {
        return None;
      }
      var c := pending[KeyOf(id)];
      TakenIsCalled(View(), id);
      forall d: CallId ensures CallKey(d) == CallKey(c) ==> d == c {
        CallKeysDiffer(d, c);
      }
      found := Some(c);
      reader := Sending(c, Reply(id, payload));
      pending := pending - {KeyOf(id)};
    }

    /** The read loop sends the reply; the slot of the channel is free. */
    method SendReply()
      requires Valid() && reader.Sending?
      modifies this`calls, this`reader
      ensures Valid() && View() == Apply(old(View()), ReadSend)
      ensures old(reader.call) < |calls| && calls[old(reader.call)].channel == [old(reader.reply)]
    {
      StepKeepsInv(View(), ReadSend);
      var c := reader.call;
      assert CallInv(View(), c) && BeingSent(View(), c);
      calls := calls[c := calls[c].(channel := calls[c].channel + [reader.reply], sent := calls[c].sent + 1)];
      reader := Idle;
    }

    /** Give every call still to be failed the error, in a slot that is free, and raise the
        done signal last. */
    method FinishFailing() returns (ghost trace: seq<Step>)
      requires Valid() && failure.Draining?
      modifies this`calls, this`failure
      ensures Valid() && Done(View()) && View() == RunFrom(old(View()), trace)
      ensures forall i | 0 <= i < |trace| :: trace[i].FailSend? || trace[i].FailDone?
      ensures |calls| == |old(calls)|
      ensures forall c | 0 <= c < |calls| ::
        calls[c] == if c in old(failure.todo) then FailedCall(old(calls)[c], old(failure.error)) else old(calls)[c]
    {
      trace := [];
      while failure.todo != {}
        invariant Valid() && failure.Draining? && failure.error == old(failure.error)
          && failure.todo <= old(failure.todo)
        invariant View() == RunFrom(old(View()), trace)
        invariant forall i | 0 <= i < |trace| :: trace[i].FailSend?
        invariant |calls| == |old(calls)|
        invariant forall c | 0 <= c < |calls| ::
          calls[c] ==
            if c in old(failure.todo) && c !in failure.todo then FailedCall(old(calls)[c], failure.error)
            else old(calls)[c]
        decreases failure.todo
      {
        var c :| c in failure.todo;
        FreeToFail(View(), c);
        StepKeepsInv(View(), FailSend(c));
        RunOneMore(old(View()), trace, FailSend(c));
        trace := trace + [FailSend(c)];
        calls := calls[c := calls[c].(channel := calls[c].channel + [ConnectionError(failure.error)],
          sent := calls[c].sent + 1)];
        failure := failure.(todo := failure.todo - {c});
      }
      StepKeepsInv(View(), FailDone);
      RunOneMore(old(View()), trace, FailDone);
      trace := trace + [FailDone];
      failure := Over;
    }

    /** Fail every registered call, once: each gets the error, nobody else gets anything, and
        the done signal comes last.  A later failure changes nothing; one that comes while the
        first is under way waits for it. */
    method FailAll(error: string) returns (ghost trace: seq<Step>)
      requires Valid() && !failure.Draining?
      modifies this`calls, this`pending, this`failure
      ensures Valid() && Done(View()) && View() == RunFrom(old(View()), trace)
      ensures forall i | 0 <= i < |trace| :: trace[i] == Fail(error) || trace[i].FailSend? || trace[i].FailDone?
      ensures old(Done(View())) ==> View() == old(View())
      ensures |calls| == |old(calls)|
      ensures !old(Done(View())) ==> pending == map[]
      ensures !old(Done(View())) ==> forall c | 0 <= c < |calls| ::
        calls[c] == if old(IsPending(View(), c)) then FailedCall(old(calls)[c], error) else old(calls)[c]
    {
      trace := [];
      if failure.NotStarted? {
        StepKeepsInv(View(), Fail(error));
        forall c | 0 <= c < |calls| ensures IsPending(View(), c) <==> c in pending.Values {
          PendingIsRegistered(View(), c);
        }
        failure := Draining(pending.Values, error);
        pending := map[];
        ghost var rest := FinishFailing();
        trace := [Fail(error)] + rest;
        assert trace[1..] == rest;
      }
    }

    // -------------------------------------------------------------- a whole call

    method Do(step: Step)
      requires Valid()
      modifies this
      ensures Valid() && View() == Apply(old(View()), step)
    {
      StepKeepsInv(View(), step);
      var s := Apply(View(), step);
      calls, pending, reader, failure := s.calls, s.pending, s.reader, s.failure;
    }

    /** The read loop, the connection and the other calls act. */
    method OthersAct(steps: seq<Step>, c: CallId)
      requires Valid() && c < |calls| && forall i | 0 <= i < |steps| :: !OwnStep(steps[i], c)
      modifies this
      ensures Valid() && c < |calls| && calls[c].pc == old(calls[c].pc)
    {
      for i := 0 to |steps|
        invariant Valid() && c < |calls| && calls[c].pc == old(calls[c].pc)
      {
        OthersLeaveCallAlone(View(), steps[i], c);
        Do(steps[i]);
      }
    }

    /** Write the request: refused once the connection is done, and a failed write fails all calls. */
    method WriteRequest(c: CallId, failed: Option<string>)
      requires Valid() && c < |calls| && calls[c].pc.Writing?
      modifies this
      ensures Valid() && c < |calls| && (calls[c].pc.Polling? || calls[c].pc.Removing?)
    {
      if failure.Over? {
        Do(WriteRefused(c));
      } else if failed.None? {
        Do(WriteOk(c));
      } else {
        Do(WriteError(c, failed.value));
        ghost var _ := FinishFailing();
        Do(WriteErrorDone(c));
      }
    }

    /** Wait for the reply, the end of the connection or, when the pauses are over, the end of
        the caller's patience. */
    method Await(c: CallId, pauses: seq<seq<Step>>, last: seq<Step>)
      requires Valid() && c < |calls| && calls[c].pc.Polling?
      requires forall i, j | 0 <= i < |pauses| && 0 <= j < |pauses[i]| :: !OwnStep(pauses[i][j], c)
      requires forall i | 0 <= i < |last| :: !OwnStep(last[i], c)
      modifies this
      ensures Valid() && c < |calls| && (calls[c].pc.Removing? || calls[c].pc.Returned?)
    {
      Do(FirstLook(c));
      var i := 0;
      while calls[c].pc.Waiting? && i < |pauses|
        invariant 0 <= i <= |pauses| && Valid() && c < |calls|
        invariant calls[c].pc.Waiting? || calls[c].pc.SawDone? || calls[c].pc.Returned?
      {
        OthersAct(pauses[i], c);
        i := i + 1;
        if calls[c].channel != [] {
          Do(Receive(c));
        } else if failure.Over? {
          Do(SeeDone(c));
        }
      }
      if calls[c].pc.Waiting? {
        Do(Cancel(c));
      } else if calls[c].pc.SawDone? {
        OthersAct(last, c);
        Do(LastLook(c));
      }
    }

    /** A whole call, against any behaviour of the read loop, the connection and the other
        calls: it returns, its id is no longer registered, and a reply is the reply to it. */
    method CallServer(failed: Option<string>, before: seq<Step>, pauses: seq<seq<Step>>, last: seq<Step>)
      returns (c: CallId, outcome: Outcome)
      requires Valid()
      requires forall i | 0 <= i < |before| :: !OwnStep(before[i], |calls|)
      requires forall i, j | 0 <= i < |pauses| && 0 <= j < |pauses[i]| :: !OwnStep(pauses[i][j], |calls|)
      requires forall i | 0 <= i < |last| :: !OwnStep(last[i], |calls|)
      modifies this
      ensures Valid() && c == |old(calls)| && c < |calls| && calls[c].pc == Returned(outcome)
      ensures !IsPending(View(), c)
      ensures outcome.Delivered? && outcome.message.Reply? ==> outcome.message.id == CallRequest(c)
    {
      c := NewCall();
      Register(c);
      OthersAct(before, c);
      WriteRequest(c, failed);
      if calls[c].pc.Polling? {
        Await(c, pauses, last);
      }
      if calls[c].pc.Removing? {
        RemovePending(c);
      }
      outcome := calls[c].pc.outcome;
      assert CallInv(View(), c);
    }
  }

  /** The call registered under the key of an id has this id, and its channel is free. */
  lemma TakenIsCalled(s: System, id: RequestId)
    requires Inv(s) && KeyOf(id) in s.pending
    ensures var c := s.pending[KeyOf(id)];
            c < |s.calls| && CallRequest(c) == id && CallKey(c) == KeyOf(id) && s.calls[c].channel == []
  {
    KeysDiffer(id, CallRequest(s.pending[KeyOf(id)]));
    assert CallInv(s, s.pending[KeyOf(id)]);
  }

  lemma FreeToFail(s: System, c: CallId)
    requires Inv(s) && BeingFailed(s, c)
    ensures c < |s.calls| && s.calls[c].channel == [] && s.calls[c].sent == 0
  {
    assert CallInv(s, c);
  }

  lemma RunOneMore(s: System, steps: seq<Step>, step: Step)
    ensures RunFrom(s, steps + [step]) == Apply(RunFrom(s, steps), step)
  {
    RunTogether(s, steps, [step]);
    assert [step][1..] == [];
  }
}
