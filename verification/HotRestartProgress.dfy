/**
 A hot restart can always succeed: as long as nobody asks for a stop, and neither side has
 given up or died, the two programs can bring the handover to its end.
 */
module HotRestartProgress {
  import opened Common
  import opened HotRestart

  /** A step of the two programs in which nothing goes wrong, or the passing of time. */
  predicate SmoothStep(step: Step) {
    match step
    case OldResolve(ok) => ok
    case OldPrepare(ok) => ok
    case OldSpawn(ok) => ok
    case OldChallenge(ok) => ok
    case ChildFirstBeat(ok) => ok
    case ChildAnswer(ok) => ok
    case ChildBeat(ok) => ok
    case _ => !step.OldTimeout? && !step.ChildTimeout? && !step.ChildDies? && !step.StopChanges? && !step.OldTerminate?
  }

  /** Smooth steps lead from `s` to `s'`. */
  ghost predicate Leads(s: System, steps: seq<Step>, s': System) {
    RunFrom(s, steps) == s' && forall i | 0 <= i < |steps| :: SmoothStep(steps[i])
  }

  lemma Go(s: System, steps: seq<Step>, s': System, step: Step) returns (steps': seq<Step>, s'': System)
    requires Leads(s, steps, s') && SmoothStep(step)
    ensures Leads(s, steps', s'') && s'' == Apply(s', step)
  {
    hide Apply, SmoothStep;
    RunOneMore(s, steps, step);
    steps', s'' := steps + [step], Apply(s', step);
  }

  // ---------------------------------------------------------------- what the two know of each other

  /** The old daemon has seen a heartbeat of its replacement. */
  predicate SawBeat(pc: OldPc) {
    || pc.AwaitAdvance? || pc.ClearingAnswer? || pc.Challenging? || pc.AwaitAnswer? || pc.Answered? || pc.Ready?
    || pc.SeenAlive? || pc.Draining? || pc.Exited?
  }

  predicate Starting(pc: ChildPc) {
    pc.Absent? || pc.Booting? || pc.FirstBeat?
  }

  /** Before its first beat the replacement is not seen; and while the old daemon waits for an
      answer, its challenge lies open for a replacement that lives. */
  predicate TalkInv(s: System) {
    && (Starting(s.child) ==> s.files.heartbeat.None? && !SawBeat(s.daemon))
    && (s.daemon.AwaitAnswer? && Alive(s.child) ==> s.files.challenge == Some(s.daemon.nonce))
    && (s.child.Absent? ==> BeforeSpawn(s.daemon) || s.daemon.Kept?)
  }

  lemma StepKeepsTalk(s: System, step: Step)
    requires OwnerInv(s) && TalkInv(s)
    ensures OwnerInv(Apply(s, step)) && TalkInv(Apply(s, step))
  {
    StepKeepsOwner(s, step);
  }

  lemma {:induction false} RunTalks(s: System, steps: seq<Step>)
    requires OwnerInv(s) && TalkInv(s)
    ensures OwnerInv(RunFrom(s, steps)) && TalkInv(RunFrom(s, steps))
    decreases |steps|
  {
    hide Apply, OwnerInv, TalkInv;
    if steps != [] {
      StepKeepsTalk(s, steps[0]);
      RunTalks(Apply(s, steps[0]), steps[1..]);
    }
  }

  // ---------------------------------------------------------------- the replacement

  /** What the replacement does next if nothing goes wrong. */
  function NextOf(pc: ChildPc): Step
    requires Alive(pc) && !pc.Serving?
  {
    match pc
    case Booting => ChildBoot
    case FirstBeat => ChildFirstBeat(true)
    case LoopHead => ChildCheckStop
    case TryLock => ChildTryLock
    case ReadChallenge => ChildRead
    case Answering(_) => ChildAnswer(true)
    case Beating => ChildBeat(true)
    case Finalizing => ChildFinalize
  }

  function ToHead(pc: ChildPc): nat {
    match pc
    case Booting => 2
    case FirstBeat => 1
    case TryLock => 4
    case ReadChallenge => 3
    case Answering(_) => 2
    case Beating => 1
    case _ => 0
  }

  /** The replacement is alive, the old daemon holds the lock, and no stop is asked for. */
  predicate Waits(s: System) {
    !s.stop && s.lock.OldDaemon? && Alive(s.child) && !s.child.Serving? && !s.child.Finalizing?
  }

  /** What the replacement's rounds leave as it is. */
  predicate SameTalk(s: System, s': System) {
    s'.daemon == s.daemon && s'.clock == s.clock && (!Starting(s.child) ==> s'.files.challenge == s.files.challenge)
  }

  /** The replacement comes back to the head of its loop. */
  lemma {:induction false} BackToHead(s: System, steps: seq<Step>, s': System) returns (steps': seq<Step>, s'': System)
    requires Leads(s, steps, s') && Waits(s')
    ensures Leads(s, steps', s'') && Waits(s'') && s''.child.LoopHead? && SameTalk(s', s'')
    ensures s'.child.LoopHead? ==> s'' == s'
    ensures s'.child.Beating? || Starting(s'.child) ==> s''.files.heartbeat == Some(s'.clock)
    ensures s'.child.Beating? ==> s''.files.answer == s'.files.answer
    decreases ToHead(s'.child)
  {
    hide Leads;
    if s'.child.LoopHead? {
      steps', s'' := steps, s';
    } else {
      var more, next := Go(s, steps, s', NextOf(s'.child));
      steps', s'' := BackToHead(s, more, next);
    }
  }

  /** One round: the replacement beats now, and answers the challenge that lies open. */
  lemma OneRound(s: System, steps: seq<Step>, s': System) returns (steps': seq<Step>, s'': System)
    requires Leads(s, steps, s') && Waits(s') && s'.child.LoopHead?
    ensures Leads(s, steps', s'') && Waits(s'') && s''.child.LoopHead? && SameTalk(s', s'')
    ensures s''.files.heartbeat == Some(s'.clock)
    ensures s'.files.challenge.Some? ==> s''.files.answer == s'.files.challenge
  {
    hide Leads;
    var a, sa := Go(s, steps, s', ChildCheckStop);
    var b, sb := Go(s, a, sa, ChildTryLock);
    var c, sc := Go(s, b, sb, ChildRead);
    if sc.child.Answering? {
      c, sc := Go(s, c, sc, ChildAnswer(true));
    }
    steps', s'' := BackToHead(s, c, sc);
  }

  function ToService(pc: ChildPc): nat {
    match pc
    case Finalizing => 1
    case TryLock => 2
    case LoopHead => 3
    case Beating => 4
    case FirstBeat => 4
    case Answering(_) => 5
    case Booting => 5
    case ReadChallenge => 6
    case _ => 0
  }

  /** Once the old daemon has exited, the replacement comes to serve. */
  lemma {:induction false} ToServing(s: System, steps: seq<Step>, s': System) returns (steps': seq<Step>, s'': System)
    requires Leads(s, steps, s') && s'.daemon.Exited? && !s'.stop && Alive(s'.child) && OwnerInv(s')
    ensures Leads(s, steps', s'') && s''.daemon.Exited? && s''.child.Serving?
    decreases ToService(s'.child)
  {
    hide Leads;
    if s'.child.Serving? {
      steps', s'' := steps, s';
    } else {
      StepKeepsOwner(s', NextOf(s'.child));
      var more, next := Go(s, steps, s', NextOf(s'.child));
      steps', s'' := ToServing(s, more, next);
    }
  }

  // ---------------------------------------------------------------- the old daemon

  lemma Spawns(s: System, steps: seq<Step>, s': System) returns (steps': seq<Step>, s'': System)
    requires Leads(s, steps, s') && BeforeSpawn(s'.daemon) && !s'.stop && s'.lock.OldDaemon?
    ensures Leads(s, steps', s'') && s''.daemon.AwaitBeat? && Waits(s'')
  {
    hide Leads;
    steps', s'' := steps, s';
    if s''.daemon.Idle? {
      steps', s'' := Go(s, steps', s'', OldStart);
    }
    if s''.daemon.Resolving? {
      steps', s'' := Go(s, steps', s'', OldResolve(true));
    }
    if s''.daemon.Preparing? {
      steps', s'' := Go(s, steps', s'', OldPrepare(true));
    }
    steps', s'' := Go(s, steps', s'', OldSpawn(true));
  }

  /** The old daemon sees the heartbeat advance. */
  lemma SeesAdvance(s: System, steps: seq<Step>, s': System) returns (steps': seq<Step>, s'': System)
    requires Leads(s, steps, s') && Waits(s') && (s'.daemon.AwaitBeat? || s'.daemon.AwaitAdvance?)
    requires s'.daemon.AwaitAdvance? ==> s'.daemon.first <= s'.clock
    ensures Leads(s, steps', s'') && Waits(s'') && s''.daemon.ClearingAnswer? && s''.child.LoopHead?
  {
    hide Leads;
    steps', s'' := BackToHead(s, steps, s');
    if s''.daemon.AwaitBeat? {
      steps', s'' := OneRound(s, steps', s'');
      steps', s'' := Go(s, steps', s'', OldLook);
    }
    steps', s'' := Go(s, steps', s'', Tick);
    steps', s'' := OneRound(s, steps', s'');
    steps', s'' := Go(s, steps', s'', OldLook);
  }

  lemma Challenges(s: System, steps: seq<Step>, s': System) returns (steps': seq<Step>, s'': System)
    requires Leads(s, steps, s') && Waits(s') && (s'.daemon.ClearingAnswer? || s'.daemon.Challenging?)
    ensures Leads(s, steps', s'') && Waits(s'') && s''.daemon.AwaitAnswer? && s''.child == s'.child
    ensures s''.files.challenge == Some(s''.daemon.nonce)
  {
    hide Leads;
    steps', s'' := steps, s';
    if s''.daemon.ClearingAnswer? {
      steps', s'' := Go(s, steps', s'', OldClear);
    }
    steps', s'' := Go(s, steps', s'', OldChallenge(true));
  }

  lemma SeesAnswer(s: System, steps: seq<Step>, s': System) returns (steps': seq<Step>, s'': System)
    requires Leads(s, steps, s') && Waits(s') && s'.daemon.AwaitAnswer? && !Starting(s'.child)
    requires s'.files.challenge == Some(s'.daemon.nonce)
    ensures Leads(s, steps', s'') && Waits(s'') && s''.daemon.Answered?
  {
    hide Leads;
    steps', s'' := BackToHead(s, steps, s');
    steps', s'' := OneRound(s, steps', s'');
    steps', s'' := Go(s, steps', s'', OldReadAnswer);
  }

  predicate Leaving(pc: OldPc) {
    pc.Answered? || pc.Ready? || pc.SeenAlive? || pc.Draining?
  }

  lemma Exits(s: System, steps: seq<Step>, s': System) returns (steps': seq<Step>, s'': System)
    requires Leads(s, steps, s') && Waits(s') && Leaving(s'.daemon)
    ensures Leads(s, steps', s'') && s''.daemon.Exited? && !s''.stop && s''.child == s'.child
  {
    hide Leads;
    steps', s'' := steps, s';
    if s''.daemon.Answered? {
      steps', s'' := Go(s, steps', s'', OldConfirm);
    }
    if s''.daemon.Ready? {
      steps', s'' := Go(s, steps', s'', OldCheckAlive);
    }
    if s''.daemon.SeenAlive? {
      steps', s'' := Go(s, steps', s'', OldCheckStop);
    }
    steps', s'' := Go(s, steps', s'', OldExit);
  }

  // ---------------------------------------------------------------- the whole handover

  /** Neither side has given up or died, and no stop is asked for. */
  predicate UnderWay(s: System) {
    && !s.stop && !s.daemon.Kept? && !s.daemon.Failing?
    && (BeforeSpawn(s.daemon) || Alive(s.child))
  }

  /** From every state of every run that is still under way, smooth steps of the two programs lead
      to the end of the handover: the old daemon has exited and the replacement serves. */
  lemma HandoverCanFinish(steps: seq<Step>) returns (more: seq<Step>)
    requires UnderWay(Run(steps))
    ensures forall i | 0 <= i < |more| :: SmoothStep(more[i])
    ensures Run(steps + more).daemon.Exited? && Run(steps + more).child.Serving?
  {
    hide Apply, RunFrom, FilesInv, Leads;
    var s := Run(steps);
    RunInv(steps);
    RunTalks(INITIAL, steps);
    var s': System;
    more, s' := [], s;
    StaysPut(s);
    if BeforeSpawn(s'.daemon) {
      more, s' := Spawns(s, more, s');
    }
    if s'.daemon.AwaitBeat? || s'.daemon.AwaitAdvance? {
      more, s' := SeesAdvance(s, more, s');
    }
    if s'.daemon.ClearingAnswer? || s'.daemon.Challenging? {
      more, s' := Challenges(s, more, s');
    }
    if s'.daemon.AwaitAnswer? {
      more, s' := SeesAnswer(s, more, s');
    }
    if Leaving(s'.daemon) {
      more, s' := Exits(s, more, s');
    }
    LeadsKeepsOwner(s, more, s');
    more, s' := ToServing(s, more, s');
    LeadsMeans(s, more, s');
    RunBehind(INITIAL, steps, more);
  }

  lemma StaysPut(s: System)
    ensures Leads(s, [], s)
  {
  }

  lemma LeadsMeans(s: System, steps: seq<Step>, s': System)
    requires Leads(s, steps, s')
    ensures RunFrom(s, steps) == s' && forall i | 0 <= i < |steps| :: SmoothStep(steps[i])
  {
  }

  lemma LeadsKeepsOwner(s: System, steps: seq<Step>, s': System)
    requires Leads(s, steps, s') && OwnerInv(s) && TalkInv(s)
    ensures OwnerInv(s')
  {
    RunTalks(s, steps);
  }

  lemma {:induction false} RunBehind(s: System, steps: seq<Step>, more: seq<Step>)
    ensures RunFrom(s, steps + more) == RunFrom(RunFrom(s, steps), more)
    decreases |steps|
  {
    hide Apply;
    if steps == [] {
      assert steps + more == more;
    } else {
      assert (steps + more)[1..] == steps[1..] + more;
      RunBehind(Apply(s, steps[0]), steps[1..], more);
    }
  }

  /** A failing attempt can always be ended: the replacement is terminated and the daemon stays. */
  lemma FailureCanFinish(steps: seq<Step>)
    requires Run(steps).daemon.Failing?
    ensures Run(steps + [OldTerminate]).daemon.Kept? && Run(steps + [OldTerminate]).child.Dead?
    ensures Run(steps + [OldTerminate]).files == NO_FILES && Run(steps + [OldTerminate]).lock.OldDaemon?
  {
    hide FilesInv, EvidenceInv, BeatsInOrder;
    RunInv(steps);
    RunOneMore(INITIAL, steps, OldTerminate);
  }

  // ---------------------------------------------------------------- stops and leftovers

  /** A stop that is asked for before the old daemon's last look, and not withdrawn, keeps the old
      daemon with its lock, and the replacement never serves. */
  lemma StopIsHeard(steps: seq<Step>, more: seq<Step>)
    requires !PastLastLook(Run(steps).daemon) && StopStays(more)
    ensures var s := Run(steps + [StopChanges(true)] + more);
            !s.daemon.Exited? && s.lock.OldDaemon? && !s.child.Serving?
  {
    hide Inv, RunFrom;
    RunInv(steps + [StopChanges(true)]);
    RunOneMore(INITIAL, steps, StopChanges(true));
    RunBehind(INITIAL, steps + [StopChanges(true)], more);
    StopKeepsOldDaemon(Run(steps + [StopChanges(true)]), more);
  }

  /** The restart has been prepared and has not ended. */
  predicate Prepared(pc: OldPc) {
    !pc.Idle? && !pc.Resolving? && !pc.Preparing? && !pc.Kept? && !pc.Exited?
  }

  /** Whoever has prepared a restart and then stays has cancelled the preparations. */
  lemma {:induction false} PreparedIsCancelled(s: System, steps: seq<Step>)
    requires Prepared(s.daemon) || s.daemon.Exited? || (s.daemon.Kept? && s.cancelled)
    ensures var s' := RunFrom(s, steps);
            Prepared(s'.daemon) || s'.daemon.Exited? || (s'.daemon.Kept? && s'.cancelled)
    decreases |steps|
  {
    if steps != [] {
      PreparedIsCancelled(Apply(s, steps[0]), steps[1..]);
    }
  }

  /** The replacement starts without files, and leaves none when it gives up or claims the lock; and
      neither does a terminated one. */
  lemma LeavesNoFiles(s: System, step: Step)
    requires Enabled(s, step)
    requires var pc := Apply(s, step).child;
             && pc != s.child
             && (pc.FirstBeat? || pc.Finalizing? || (pc.Ended? && !s.child.Finalizing?) || step.OldTerminate?)
    ensures Apply(s, step).files == NO_FILES
  {
  }

  /** A replacement that dies is gone, and holds the lock no longer; the old daemon is as it was. */
  lemma DeathFreesLock(steps: seq<Step>)
    requires Alive(Run(steps).child)
    ensures var s := Run(steps + [ChildDies]);
            s.child.Dead? && !s.lock.Replacement? && s.daemon == Run(steps).daemon
    ensures Run(steps).lock.OldDaemon? ==> Run(steps + [ChildDies]).lock.OldDaemon?
  {
    RunOneMore(INITIAL, steps, ChildDies);
  }
}
