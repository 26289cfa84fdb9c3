/**
 What a call of the JSON-RPC client returns, told from the steps of the run: the reply that was
 read for it, the first failure of the connection, its own failed write, or its own caller's
 cancellation; and a reply that is read for a waiting call can always be returned.
 */
module RpcOutcomes {
  import opened Common
  import opened RpcClient

  // ---------------------------------------------------------------- causes

  lemma RunPlus(steps: seq<Step>, step: Step)
    ensures Run(steps + [step]) == Apply(Run(steps), step)
  {
    hide Apply;
    RunTogether(INITIAL, steps, [step]);
    assert [step][1..] == [];
  }

  /** The error of the step that first failed the connection. */
  function FirstFailure(steps: seq<Step>): Option<string> {
    if steps == [] then None
    else
      var front, last := steps[..|steps| - 1], steps[|steps| - 1];
      NextFailure(Run(front), last, FirstFailure(front))
  }

  function NextFailure(s: System, step: Step, failure: Option<string>): Option<string> {
    if failure.Some? then failure
    else if step.Fail? || (step.WriteError? && Enabled(s, step)) then Some(step.error)
    else None
  }

  lemma FirstFailureNext(steps: seq<Step>, step: Step)
    ensures FirstFailure(steps + [step]) == NextFailure(Run(steps), step, FirstFailure(steps))
  {
    hide NextFailure, Run;
    assert (steps + [step])[..|steps|] == steps;
  }

  /** A message was read as it is, or carries the error that failed the connection. */
  predicate MessageHasCause(m: Message, steps: seq<Step>, failure: Option<string>) {
    match m
    case Reply(id, payload) => ReadReply(id, payload) in steps
    case ConnectionError(error) => failure == Some(error)
  }

  predicate OutcomeHasCause(o: Outcome, c: CallId, steps: seq<Step>, failure: Option<string>) {
    match o
    case Delivered(m) => MessageHasCause(m, steps, failure)
    case Closed => failure.Some?
    case Cancelled => Cancel(c) in steps
    case WriteFailed(error) => WriteError(c, error) in steps && failure.Some?
  }

  predicate CallHasCause(call: Call, c: CallId, steps: seq<Step>, failure: Option<string>) {
    && (forall i | 0 <= i < |call.channel| :: MessageHasCause(call.channel[i], steps, failure))
    && (call.pc.SawDone? ==> failure.Some?)
    && (call.pc.Failing? ==> WriteError(c, call.pc.error) in steps && failure.Some?)
    && (call.pc.Removing? || call.pc.Returned? ==> OutcomeHasCause(call.pc.outcome, c, steps, failure))
  }

  predicate SharedHasCause(s: System, steps: seq<Step>, failure: Option<string>) {
    && (s.reader.Sending? ==> MessageHasCause(s.reader.reply, steps, failure))
    && (s.failure.NotStarted? <==> failure.None?)
    && (s.failure.Draining? ==> failure == Some(s.failure.error))
  }

  predicate Later(failure: Option<string>, failure': Option<string>) {
    failure.Some? ==> failure' == failure
  }

  lemma SharedStep(s: System, steps: seq<Step>, step: Step, failure: Option<string>, failure': Option<string>)
    requires Inv(s) && SharedHasCause(s, steps, failure)
    requires failure' == NextFailure(s, step, failure)
    ensures SharedHasCause(Apply(s, step), steps + [step], failure')
  {
    hide CallInv, CallRequest, KeyOf;
    assert step in steps + [step];
  }

  /** A cause stays a cause. */
  lemma CauseStays(call: Call, c: CallId, steps: seq<Step>, step: Step, failure: Option<string>,
      failure': Option<string>)
    requires CallHasCause(call, c, steps, failure) && Later(failure, failure')
    ensures CallHasCause(call, c, steps + [step], failure')
  {
    assert forall x | x in steps :: x in steps + [step];
  }

  predicate Sends(step: Step) {
    step.ReadSend? || step.FailSend?
  }

  predicate Takes(step: Step) {
    step.FirstLook? || step.Receive? || step.LastLook?
  }

  lemma SendStep(s: System, steps: seq<Step>, step: Step, c: CallId, failure: Option<string>)
    requires Inv(s) && SharedHasCause(s, steps, failure) && Sends(step)
    requires c < |s.calls| && CallHasCause(s.calls[c], c, steps, failure)
    ensures c < |Apply(s, step).calls| && CallHasCause(Apply(s, step).calls[c], c, steps, failure)
  {
    hide CallInv, CallRequest, KeyOf, OutcomeHasCause, MessageHasCause;
    FailureMessage(s, steps, failure);
  }

  lemma FailureMessage(s: System, steps: seq<Step>, failure: Option<string>)
    requires SharedHasCause(s, steps, failure)
    ensures s.failure.Draining? ==> MessageHasCause(ConnectionError(s.failure.error), steps, failure)
  {
  }

  lemma TakeStep(s: System, steps: seq<Step>, step: Step, c: CallId, failure: Option<string>)
    requires Inv(s) && SharedHasCause(s, steps, failure) && Takes(step)
    requires c < |s.calls| && CallHasCause(s.calls[c], c, steps, failure)
    ensures c < |Apply(s, step).calls| && CallHasCause(Apply(s, step).calls[c], c, steps, failure)
  {
    hide CallInv, CallRequest, KeyOf, MessageHasCause;
  }

  lemma OtherStep(s: System, steps: seq<Step>, step: Step, c: CallId, failure: Option<string>)
    requires Inv(s) && (Done(s) ==> failure.Some?) && !Sends(step) && !Takes(step)
    requires step.WriteError? && Enabled(s, step) ==> failure.Some?
    requires step in steps && c < |s.calls| && CallHasCause(s.calls[c], c, steps, failure)
    ensures c < |Apply(s, step).calls| && CallHasCause(Apply(s, step).calls[c], c, steps, failure)
  {
    hide CallInv, CallRequest, KeyOf, MessageHasCause;
  }

  lemma CallStep(s: System, steps: seq<Step>, step: Step, c: CallId, failure: Option<string>, failure': Option<string>)
    requires Inv(s) && SharedHasCause(s, steps, failure) && Later(failure, failure')
    requires step.WriteError? && Enabled(s, step) ==> failure'.Some?
    requires c < |s.calls| && CallHasCause(s.calls[c], c, steps, failure)
    ensures c < |Apply(s, step).calls| && CallHasCause(Apply(s, step).calls[c], c, steps + [step], failure')
  {
    hide Apply, Inv, CallHasCause;
    if Sends(step) {
      SendStep(s, steps, step, c, failure);
      CauseStays(Apply(s, step).calls[c], c, steps, step, failure, failure');
    } else if Takes(step) {
      TakeStep(s, steps, step, c, failure);
      CauseStays(Apply(s, step).calls[c], c, steps, step, failure, failure');
    } else {
      CauseStays(s.calls[c], c, steps, step, failure, failure');
      OtherStep(s, steps + [step], step, c, failure');
    }
  }

  ghost predicate HasCauses(s: System, steps: seq<Step>) {
    && SharedHasCause(s, steps, FirstFailure(steps))
    && forall c | 0 <= c < |s.calls| :: CallHasCause(s.calls[c], c, steps, FirstFailure(steps))
  }

  lemma NewCall(s: System, step: Step, c: CallId)
    requires Inv(s) && |s.calls| <= c < |Apply(s, step).calls|
    ensures Apply(s, step).calls[c] == Call(Fresh, [], 0)
  {
    hide CallInv;
  }

  lemma {:induction false} RunHasCauses(steps: seq<Step>)
    ensures Inv(Run(steps)) && HasCauses(Run(steps), steps)
  {
    hide Apply, SharedHasCause, CallHasCause, RunFrom, Enabled;
    RunKeepsInv(INITIAL, steps);
    if steps == [] {
      NothingCaused();
    } else {
      var front, last := steps[..|steps| - 1], steps[|steps| - 1];
      assert front + [last] == steps;
      RunHasCauses(front);
      RunPlus(front, last);
      FirstFailureNext(front, last);
      var s, s' := Run(front), Run(steps);
      SharedStep(s, front, last, FirstFailure(front), FirstFailure(steps));
      forall c | 0 <= c < |s'.calls| ensures CallHasCause(s'.calls[c], c, steps, FirstFailure(steps)) {
        if c < |s.calls| {
          CallStep(s, front, last, c, FirstFailure(front), FirstFailure(steps));
        } else {
          NewCall(s, last, c);
          FreshHasCause(c, steps, FirstFailure(steps));
        }
      }
    }
  }

  lemma NothingCaused()
    ensures HasCauses(Run([]), [])
  {
  }

  lemma FreshHasCause(c: CallId, steps: seq<Step>, failure: Option<string>)
    ensures CallHasCause(Call(Fresh, [], 0), c, steps, failure)
  {
  }

  /** What a call returned has its cause in the run: a reply was read as it is returned and for
      this very call; an error is that of the first failure; a failed write is the call's own, and a
      cancellation its own caller's; a closed connection was failed before. */
  lemma OutcomeIsCaused(steps: seq<Step>, c: CallId)
    requires c < |Run(steps).calls| && Run(steps).calls[c].pc.Returned?
    ensures var outcome := Run(steps).calls[c].pc.outcome;
            && (outcome.Delivered? && outcome.message.Reply? ==>
                  outcome.message.id == CallRequest(c) && ReadReply(CallRequest(c), outcome.message.payload) in steps)
            && (outcome.Delivered? && outcome.message.ConnectionError? ==>
                  FirstFailure(steps) == Some(outcome.message.error))
            && (outcome.Closed? ==> FirstFailure(steps).Some?)
            && (outcome.Cancelled? ==> Cancel(c) in steps)
            && (outcome.WriteFailed? ==> WriteError(c, outcome.error) in steps)
  {
    hide Run, SharedHasCause;
    RunHasCauses(steps);
    assert CallInv(Run(steps), c);
    assert CallHasCause(Run(steps).calls[c], c, steps, FirstFailure(steps));
  }

  // ---------------------------------------------------------------- a reply is served

  lemma ThreeSteps(steps: seq<Step>, a: Step, b: Step, d: Step)
    ensures Run(steps + [a, b, d]) == Apply(Apply(Apply(Run(steps), a), b), d)
  {
    hide Apply;
    RunPlus(steps, a);
    RunPlus(steps + [a], b);
    RunPlus(steps + [a] + [b], d);
    assert steps + [a, b, d] == steps + [a] + [b] + [d];
  }

  /** A reply read for a call that waits and has not been served can be returned as it is, whatever
      the others do; the call is then no longer registered. */
  lemma ReplyServesCall(steps: seq<Step>, c: CallId, payload: string)
    requires c < |Run(steps).calls| && Run(steps).calls[c].pc.Waiting? && IsPending(Run(steps), c)
    requires Run(steps).reader.Idle?
    ensures var s' := Run(steps + [ReadReply(CallRequest(c), payload), ReadSend, Receive(c)]);
            && |s'.calls| == |Run(steps).calls|
            && s'.calls[c] == Call(Returned(Delivered(Reply(CallRequest(c), payload))), [], 1) && !IsPending(s', c)
            && (forall d | 0 <= d < |s'.calls| && d != c ::
                  s'.calls[d] == Run(steps).calls[d] && (IsPending(s', d) <==> IsPending(Run(steps), d)))
  {
    hide Run, CallRequest, KeyOf;
    var s := Run(steps);
    var read := ReadReply(CallRequest(c), payload);
    RunHasCauses(steps);
    ThreeSteps(steps, read, ReadSend, Receive(c));
    assert CallInv(s, c);
    assert s.pending[CallKey(c)] == c by {
      CallKeysDiffer(s.pending[CallKey(c)], c);
    }
    var taken := Apply(s, read);
    assert taken.reader == Sending(c, Reply(CallRequest(c), payload));
    var sent := Apply(taken, ReadSend);
    assert sent.calls[c].channel == [Reply(CallRequest(c), payload)];
    forall d | 0 <= d < |s.calls| && d != c ensures IsPending(taken, d) <==> IsPending(s, d) {
      CallKeysDiffer(c, d);
    }
  }

  /** A reply under an id that no registered call has changes nothing. */
  lemma StrayReplyIsDropped(steps: seq<Step>, id: RequestId, payload: string)
    requires forall c | 0 <= c < |Run(steps).calls| && IsPending(Run(steps), c) :: CallRequest(c) != id
    ensures Run(steps + [ReadReply(id, payload)]) == Run(steps)
  {
    hide Run, CallRequest, KeyOf;
    RunHasCauses(steps);
    RunPlus(steps, ReadReply(id, payload));
    var s := Run(steps);
    if KeyOf(id) in s.pending {
      KeysDiffer(id, CallRequest(s.pending[KeyOf(id)]));
    }
  }

  /** The n-th call registers under its own number, counted from one, and a call that is written on a
      connection that has not failed waits registered, or has been served already. */
  lemma CallIsRegistered(steps: seq<Step>, c: CallId)
    requires c < |Run(steps).calls| && FirstFailure(steps).None?
    requires Run(steps).calls[c].pc.Waiting? && Run(steps).calls[c].channel == []
    ensures ("n:" + Decimal(c + 1) in Run(steps).pending && Run(steps).pending["n:" + Decimal(c + 1)] == c)
      || BeingSent(Run(steps), c)
  {
    hide Run, FirstFailure;
    RunHasCauses(steps);
    var s := Run(steps);
    assert CallInv(s, c);
    assert CallKey(c) == "n:" + Decimal(c + 1);
    if IsPending(s, c) {
      CallKeysDiffer(s.pending[CallKey(c)], c);
    }
  }
}
