module HotRestart {
  // The hot restart of the daemon: an old daemon hands over to a replacement it has spawned.
  //
  // The two talk through three files of their own: the replacement's heartbeat, the old
  // daemon's challenge and the replacement's answer.  The old daemon holds the instance lock
  // until it exits; the replacement waits for the lock and gives it up again if a stop has
  // been asked for.
  //
  // A step is one file operation, one look at a process, the lock or the stop intent, or a
  // change of the surroundings.  A run is any sequence of steps; a step that is not enabled
  // changes nothing.  The log is history: nobody reads it.

  import opened Common

  type Time = nat
  type Nonce = nat

  datatype OldPc =
    | Idle
    | Resolving
    | Preparing
    | Spawning
    | AwaitBeat
    | AwaitAdvance(first: Time)
    | ClearingAnswer
    | Challenging
    | AwaitAnswer(nonce: Nonce)
    | Answered
    | Ready
    | SeenAlive
    | Draining
    | Failing
    | Kept
    | Exited

  datatype ChildPc =
    | Absent
    | Booting
    | FirstBeat
    | LoopHead
    | TryLock
    | ReadChallenge
    | Answering(nonce: Nonce)
    | Beating
    | Finalizing
    | Serving
    | Ended
    | Dead

  datatype Holder = OldDaemon | Replacement | Nobody

  datatype Files = Files(heartbeat: Option<Time>, challenge: Option<Nonce>, answer: Option<Nonce>)

  const NO_FILES := Files(None, None, None)

  datatype Entry =
    | Beat(at: Time)
    | Challenge(nonce: Nonce)
    | Answer(nonce: Nonce)
    | LooksAlive
    | NoStop
    | Exit

  datatype System = System(
    daemon: OldPc,
    child: ChildPc,
    files: Files,
    lock: Holder,
    stop: bool,
    clock: Time,
    nonces: Nonce,
    cancelled: bool,
    log: seq<Entry>)

  const INITIAL := System(Idle, Absent, NO_FILES, OldDaemon, false, 0, 0, false, [])

  datatype Step =
    | OldStart
    | OldResolve(ok: bool)
    | OldPrepare(ok: bool)
    | OldSpawn(ok: bool)
    | OldLook
    | OldClear
    | OldChallenge(ok: bool)
    | OldReadAnswer
    | OldConfirm
    | OldCheckAlive
    | OldCheckStop
    | OldExit
    | OldTimeout
    | OldTerminate
    | ChildBoot
    | ChildFirstBeat(ok: bool)
    | ChildCheckStop
    | ChildTryLock
    | ChildRead
    | ChildAnswer(ok: bool)
    | ChildBeat(ok: bool)
    | ChildTimeout
    | ChildFinalize
    | ChildDies
    | StopChanges(stop: bool)
    | Tick

  // ---------------------------------------------------------------- the steps

  predicate Alive(child: ChildPc) {
    !child.Absent? && !child.Ended? && !child.Dead?
  }

  predicate Enabled(s: System, step: Step) {
    match step
    case OldStart => s.daemon.Idle?
    case OldResolve(_) => s.daemon.Resolving?
    case OldPrepare(_) => s.daemon.Preparing?
    case OldSpawn(_) => s.daemon.Spawning?
    case OldLook => s.daemon.AwaitBeat? || s.daemon.AwaitAdvance?
    case OldClear => s.daemon.ClearingAnswer?
    case OldChallenge(_) => s.daemon.Challenging?
    case OldReadAnswer => s.daemon.AwaitAnswer?
    case OldConfirm => s.daemon.Answered?
    case OldCheckAlive => s.daemon.Ready?
    case OldCheckStop => s.daemon.SeenAlive?
    case OldExit => s.daemon.Draining?
    case OldTimeout => s.daemon.AwaitBeat? || s.daemon.AwaitAdvance? || s.daemon.AwaitAnswer?
    case OldTerminate => s.daemon.Failing?
    case ChildBoot => s.child.Booting?
    case ChildFirstBeat(_) => s.child.FirstBeat?
    case ChildCheckStop => s.child.LoopHead?
    case ChildTryLock => s.child.TryLock?
    case ChildRead => s.child.ReadChallenge?
    case ChildAnswer(_) => s.child.Answering?
    case ChildBeat(_) => s.child.Beating?
    case ChildTimeout => s.child.LoopHead?
    case ChildFinalize => s.child.Finalizing?
    case ChildDies => Alive(s.child)
    case StopChanges(_) => true
    case Tick => true
  }

  function Logged(s: System, e: Entry): System {
    s.(log := s.log + [e])
  }

  /** The old daemon's part of the handshake. */
  function ApplyOld(s: System, step: Step): System
    requires Enabled(s, step)
  {
    match step
    case OldStart => s.(daemon := if s.stop then Kept else Resolving)
    case OldResolve(ok) => s.(daemon := if ok then Preparing else Kept)
    case OldPrepare(ok) => s.(daemon := if ok then Spawning else Kept)
    case OldSpawn(ok) => if ok then s.(daemon := AwaitBeat, child := Booting) else s.(daemon := Kept, cancelled := true)
    case OldLook =>
      if s.files.heartbeat.None? then s
      else if s.daemon.AwaitBeat? then s.(daemon := AwaitAdvance(s.files.heartbeat.value))
      else if s.files.heartbeat.value > s.daemon.first then s.(daemon := ClearingAnswer)
      else s
    case OldClear => s.(daemon := Challenging, files := s.files.(answer := None))
    case OldChallenge(ok) =>
      if ok then
        Logged(s.(daemon := AwaitAnswer(s.nonces), files := s.files.(challenge := Some(s.nonces)),
          nonces := s.nonces + 1),
               Challenge(s.nonces))
      else s.(daemon := Failing)
    case OldReadAnswer => if s.files.answer == Some(s.daemon.nonce) then s.(daemon := Answered) else s
    case OldConfirm => s.(daemon := if Alive(s.child) then Ready else Failing)
    case OldCheckAlive => if Alive(s.child) then Logged(s.(daemon := SeenAlive), LooksAlive) else s.(daemon := Failing)
    case OldCheckStop => if s.stop then s.(daemon := Failing) else Logged(s.(daemon := Draining), NoStop)
    case OldExit => Logged(s.(daemon := Exited, lock := if s.lock.OldDaemon? then Nobody else s.lock), Exit)
    case OldTimeout => s.(daemon := Failing)
    case OldTerminate => s.(daemon := Kept, child := Dead, cancelled := true, files := NO_FILES)
    case _ => s
  }

  /** The replacement's part, and the surroundings. */
  function ApplyChild(s: System, step: Step): System
    requires Enabled(s, step)
  {
    match step
    case ChildBoot => s.(child := FirstBeat, files := NO_FILES)
    case ChildFirstBeat(ok) =>
      if ok then Logged(s.(child := LoopHead, files := s.files.(heartbeat := Some(s.clock))), Beat(s.clock))
      else s.(child := Ended, files := NO_FILES)
    case ChildCheckStop => if s.stop then s.(child := Ended, files := NO_FILES) else s.(child := TryLock)
    case ChildTryLock =>
      if s.lock.Nobody? then s.(child := Finalizing, lock := Replacement, files := NO_FILES)
        else s.(child := ReadChallenge)
    case ChildRead => s.(child := if s.files.challenge.Some? then Answering(s.files.challenge.value) else Beating)
    case ChildAnswer(ok) =>
      if ok then Logged(s.(child := Beating, files := s.files.(answer := Some(s.child.nonce))), Answer(s.child.nonce))
      else s.(child := Beating)
    case ChildBeat(ok) =>
      if ok then Logged(s.(child := LoopHead, files := s.files.(heartbeat := Some(s.clock))), Beat(s.clock))
      else s.(child := LoopHead)
    case ChildTimeout => s.(child := Ended, files := NO_FILES)
    case ChildFinalize => if s.stop then s.(child := Ended, lock := Nobody) else s.(child := Serving)
    case ChildDies => s.(child := Dead, lock := if s.lock.Replacement? then Nobody else s.lock)
    case StopChanges(stop) => s.(stop := stop)
    case Tick => s.(clock := s.clock + 1)
    case _ => s
  }

  predicate OldsStep(step: Step) {
    || step.OldStart? || step.OldResolve? || step.OldPrepare? || step.OldSpawn? || step.OldLook? || step.OldClear?
    || step.OldChallenge? || step.OldReadAnswer? || step.OldConfirm? || step.OldCheckAlive? || step.OldCheckStop?
    || step.OldExit? || step.OldTimeout? || step.OldTerminate?
  }

  function Apply(s: System, step: Step): System {
    if !Enabled(s, step) then s else if OldsStep(step) then ApplyOld(s, step) else ApplyChild(s, step)
  }

  function RunFrom(s: System, steps: seq<Step>): System
    decreases |steps|
  {
    if steps == [] then s else RunFrom(Apply(s, steps[0]), steps[1..])
  }

  function Run(steps: seq<Step>): System {
    RunFrom(INITIAL, steps)
  }

  // ---------------------------------------------------------------- who owns the lock

  /** The old daemon has not spawned yet. */
  predicate BeforeSpawn(pc: OldPc) {
    pc.Idle? || pc.Resolving? || pc.Preparing? || pc.Spawning?
  }

  predicate OwnerInv(s: System) {
    && (!s.daemon.Exited? ==> s.lock.OldDaemon?)
    && (s.daemon.Exited? ==> !s.lock.OldDaemon?)
    && (s.child.Finalizing? || s.child.Serving? <==> s.lock.Replacement?)
    && (BeforeSpawn(s.daemon) ==> s.child.Absent?)
    && (s.daemon.Kept? ==> !Alive(s.child))
    && (s.daemon.Kept? && !s.child.Absent? ==> s.cancelled)
  }

  lemma StepKeepsOwner(s: System, step: Step)
    requires OwnerInv(s)
    ensures OwnerInv(Apply(s, step))
  {
  }

  // ---------------------------------------------------------------- the evidence

  predicate BeatAt(log: seq<Entry>, i: nat, at: Time) {
    i < |log| && log[i] == Beat(at)
  }

  /** Beats are logged in the order of their times, none later than the clock. */
  ghost predicate BeatsInOrder(log: seq<Entry>, clock: Time) {
    && (forall i | 0 <= i < |log| && log[i].Beat? :: log[i].at <= clock)
    && (forall i, j | 0 <= i < j < |log| && log[i].Beat? && log[j].Beat? :: log[i].at <= log[j].at)
  }

  /** Two beats with an advancing clock, both before position `p`. */
  ghost predicate Advanced(log: seq<Entry>, p: nat) {
    exists i: nat, j: nat :: i < j < p && j < |log| && log[i].Beat? && log[j].Beat? && log[i].at < log[j].at
  }

  /** The challenge was made at `k`, after the heartbeat had advanced. */
  ghost predicate Challenged(log: seq<Entry>, k: nat, nonce: Nonce) {
    k < |log| && log[k] == Challenge(nonce) && Advanced(log, k)
  }

  /** The challenge was answered after it was made. */
  ghost predicate AnsweredAfter(log: seq<Entry>, nonce: Nonce, m: nat) {
    m < |log| && log[m] == Answer(nonce) && exists k: nat :: k < m && Challenged(log, k, nonce)
  }

  ghost predicate HasAnswer(log: seq<Entry>) {
    exists nonce: Nonce, m: nat :: AnsweredAfter(log, nonce, m)
  }

  ghost predicate HasLife(log: seq<Entry>, l: nat) {
    l < |log| && log[l] == LooksAlive && exists nonce: Nonce, m: nat :: m < l && AnsweredAfter(log, nonce, m)
  }

  /** Everything that must have happened, in this order, before the old daemon may exit. */
  ghost predicate Justified(log: seq<Entry>, q: nat) {
    q < |log| && log[q] == NoStop && exists l: nat :: l < q && HasLife(log, l)
  }

  ghost predicate FilesInv(s: System) {
    && (s.files.heartbeat.Some? ==> exists i: nat :: BeatAt(s.log, i, s.files.heartbeat.value))
    && (s.files.challenge.Some? ==> exists k: nat :: Challenged(s.log, k, s.files.challenge.value))
    && (s.files.answer.Some? ==> exists m: nat :: AnsweredAfter(s.log, s.files.answer.value, m))
    && (s.child.Answering? ==> exists k: nat :: Challenged(s.log, k, s.child.nonce))
  }

  ghost predicate EvidenceInv(s: System) {
    match s.daemon
    case AwaitAdvance(first) => exists i: nat :: BeatAt(s.log, i, first)
    case ClearingAnswer => Advanced(s.log, |s.log|)
    case Challenging => Advanced(s.log, |s.log|)
    case Answered => HasAnswer(s.log)
    case Ready => HasAnswer(s.log)
    case SeenAlive => exists l: nat :: HasLife(s.log, l)
    case Draining => exists q: nat :: Justified(s.log, q)
    case Exited => exists q: nat :: Justified(s.log, q)
    case _ => true
  }

  ghost predicate Inv(s: System) {
    && OwnerInv(s) && FilesInv(s) && EvidenceInv(s) && BeatsInOrder(s.log, s.clock)
    && (Exit in s.log <==> s.daemon.Exited?)
  }

  // Evidence is never lost: what a log shows, any longer log shows.

  lemma AdvancedStays(log: seq<Entry>, more: seq<Entry>, p: nat)
    requires Advanced(log, p)
    ensures Advanced(log + more, p)
  {
    var i: nat, j: nat :| i < j < p && j < |log| && log[i].Beat? && log[j].Beat? && log[i].at < log[j].at;
    assert (log + more)[i] == log[i] && (log + more)[j] == log[j];
  }

  lemma ChallengedStays(log: seq<Entry>, more: seq<Entry>, k: nat, nonce: Nonce)
    requires Challenged(log, k, nonce)
    ensures Challenged(log + more, k, nonce)
  {
    AdvancedStays(log, more, k);
  }

  lemma AnsweredStays(log: seq<Entry>, more: seq<Entry>, nonce: Nonce, m: nat)
    requires AnsweredAfter(log, nonce, m)
    ensures AnsweredAfter(log + more, nonce, m)
  {
    var k: nat :| k < m && Challenged(log, k, nonce);
    ChallengedStays(log, more, k, nonce);
  }

  lemma LifeStays(log: seq<Entry>, more: seq<Entry>, l: nat)
    requires HasLife(log, l)
    ensures HasLife(log + more, l)
  {
    var nonce: Nonce, m: nat :| m < l && AnsweredAfter(log, nonce, m);
    AnsweredStays(log, more, nonce, m);
  }

  lemma JustifiedStays(log: seq<Entry>, more: seq<Entry>, q: nat)
    requires Justified(log, q)
    ensures Justified(log + more, q)
  {
    var l: nat :| l < q && HasLife(log, l);
    LifeStays(log, more, l);
  }

  /** The files still tell the truth about a longer log. */
  lemma FilesStay(s: System, e: Entry)
    requires FilesInv(s)
    ensures FilesInv(Logged(s, e))
  {
    var log' := s.log + [e];
    if s.files.heartbeat.Some? {
      var i: nat :| BeatAt(s.log, i, s.files.heartbeat.value);
      assert BeatAt(log', i, s.files.heartbeat.value);
    }
    if s.files.challenge.Some? {
      var k: nat :| Challenged(s.log, k, s.files.challenge.value);
      ChallengedStays(s.log, [e], k, s.files.challenge.value);
    }
    if s.files.answer.Some? {
      var m: nat :| AnsweredAfter(s.log, s.files.answer.value, m);
      AnsweredStays(s.log, [e], s.files.answer.value, m);
    }
    if s.child.Answering? {
      var k: nat :| Challenged(s.log, k, s.child.nonce);
      ChallengedStays(s.log, [e], k, s.child.nonce);
    }
  }

  lemma AdvancedFurther(log: seq<Entry>, e: Entry)
    requires Advanced(log, |log|)
    ensures Advanced(log + [e], |log + [e]|)
  {
    var i: nat, j: nat :| i < j < |log| && log[i].Beat? && log[j].Beat? && log[i].at < log[j].at;
    var log' := log + [e];
    assert log'[i] == log[i] && log'[j] == log[j];
    assert i < j < |log'| && log'[i].Beat? && log'[j].Beat? && log'[i].at < log'[j].at;
  }

  /** And so does what the old daemon has found out. */
  lemma EvidenceStays(s: System, e: Entry)
    requires EvidenceInv(s)
    ensures EvidenceInv(Logged(s, e))
  {
    match s.daemon
    case AwaitAdvance(first) =>
      var i: nat :| BeatAt(s.log, i, first);
      assert BeatAt(s.log + [e], i, first);
    case ClearingAnswer => AdvancedFurther(s.log, e);
    case Challenging => AdvancedFurther(s.log, e);
    case Answered =>
      var nonce: Nonce, m: nat :| AnsweredAfter(s.log, nonce, m);
      AnsweredStays(s.log, [e], nonce, m);
    case Ready =>
      var nonce: Nonce, m: nat :| AnsweredAfter(s.log, nonce, m);
      AnsweredStays(s.log, [e], nonce, m);
    case SeenAlive =>
      var l: nat :| HasLife(s.log, l);
      LifeStays(s.log, [e], l);
    case Draining =>
      var q: nat :| Justified(s.log, q);
      JustifiedStays(s.log, [e], q);
    case Exited =>
      var q: nat :| Justified(s.log, q);
      JustifiedStays(s.log, [e], q);
    case _ =>
  }

  lemma LookKeepsInv(s: System)
    requires Inv(s) && Enabled(s, OldLook)
    ensures Inv(Apply(s, OldLook))
  {
    if s.daemon.AwaitAdvance? && s.files.heartbeat.Some? && s.files.heartbeat.value > s.daemon.first {
      var i: nat :| BeatAt(s.log, i, s.daemon.first);
      var j: nat :| BeatAt(s.log, j, s.files.heartbeat.value);
      assert i < j;
      assert Advanced(s.log, |s.log|);
    }
  }

  lemma ChallengeKeepsInv(s: System, ok: bool)
    requires Inv(s) && Enabled(s, OldChallenge(ok))
    ensures Inv(Apply(s, OldChallenge(ok)))
  {
    hide AnsweredAfter, BeatAt, Advanced, HasLife, HasAnswer, Justified;
    if ok {
      FilesStay(s, Challenge(s.nonces));
      AdvancedStays(s.log, [Challenge(s.nonces)], |s.log|);
      assert Challenged(s.log + [Challenge(s.nonces)], |s.log|, s.nonces);
    }
  }

  lemma CheckAliveKeepsInv(s: System)
    requires Inv(s) && Enabled(s, OldCheckAlive)
    ensures Inv(Apply(s, OldCheckAlive))
  {
    hide Challenged, AnsweredAfter, BeatAt, Advanced, Justified;
    if Alive(s.child) {
      FilesStay(s, LooksAlive);
      var nonce: Nonce, m: nat :| AnsweredAfter(s.log, nonce, m);
      AnsweredStays(s.log, [LooksAlive], nonce, m);
      assert HasLife(s.log + [LooksAlive], |s.log|);
    }
  }

  lemma CheckStopKeepsInv(s: System)
    requires Inv(s) && Enabled(s, OldCheckStop)
    ensures Inv(Apply(s, OldCheckStop))
  {
    hide Challenged, AnsweredAfter, BeatAt, Advanced, HasLife, HasAnswer;
    if !s.stop {
      FilesStay(s, NoStop);
      var l: nat :| HasLife(s.log, l);
      LifeStays(s.log, [NoStop], l);
      assert Justified(s.log + [NoStop], |s.log|);
    }
  }

  lemma ExitKeepsInv(s: System)
    requires Inv(s) && Enabled(s, OldExit)
    ensures Inv(Apply(s, OldExit))
  {
    hide Challenged, AnsweredAfter, BeatAt, Advanced, HasLife, HasAnswer, Justified;
    FilesStay(s, Exit);
    EvidenceStays(s, Exit);
  }

  lemma OtherOldKeepsInv(s: System, step: Step)
    requires Inv(s) && Enabled(s, step) && OldsStep(step)
    requires !step.OldLook? && !step.OldChallenge? && !step.OldCheckAlive? && !step.OldCheckStop? && !step.OldExit?
    ensures Inv(Apply(s, step))
  {
    hide Challenged, AnsweredAfter, BeatAt, Advanced, HasLife, Justified;
    StepKeepsOwner(s, step);
    if step.OldReadAnswer? && s.files.answer == Some(s.daemon.nonce) {
      var m: nat :| AnsweredAfter(s.log, s.files.answer.value, m);
      assert HasAnswer(s.log);
    }
  }

  lemma BeatKeepsInv(s: System, s': System)
    requires Inv(s) && OwnerInv(s')
    requires s'.log == s.log + [Beat(s.clock)] && s'.daemon == s.daemon && s'.clock == s.clock && !s'.child.Answering?
    requires s'.files == s.files.(heartbeat := Some(s.clock))
    ensures Inv(s')
  {
    hide Challenged, AnsweredAfter, Advanced, HasLife, HasAnswer, Justified;
    FilesStay(s, Beat(s.clock));
    EvidenceStays(s, Beat(s.clock));
    assert BeatAt(s'.log, |s.log|, s.clock);
  }

  lemma AnswerKeepsInv(s: System, ok: bool)
    requires Inv(s) && Enabled(s, ChildAnswer(ok))
    ensures Inv(Apply(s, ChildAnswer(ok)))
  {
    hide Challenged, BeatAt, Advanced, HasLife, HasAnswer, Justified;
    if ok {
      var e := Answer(s.child.nonce);
      FilesStay(s, e);
      EvidenceStays(s, e);
      var k: nat :| Challenged(s.log, k, s.child.nonce);
      ChallengedStays(s.log, [e], k, s.child.nonce);
      assert AnsweredAfter(s.log + [e], s.child.nonce, |s.log|);
    }
  }

  lemma ChildKeepsInv(s: System, step: Step)
    requires Inv(s) && Enabled(s, step) && !OldsStep(step)
    ensures Inv(Apply(s, step))
  {
    hide Challenged, AnsweredAfter, BeatAt, Advanced, HasLife, HasAnswer, Justified;
    StepKeepsOwner(s, step);
    if (step.ChildFirstBeat? || step.ChildBeat?) && step.ok {
      BeatKeepsInv(s, Apply(s, step));
    } else if step.ChildAnswer? {
      AnswerKeepsInv(s, step.ok);
    }
  }

  lemma StepKeepsInv(s: System, step: Step)
    requires Inv(s)
    ensures Inv(Apply(s, step))
  {
    if Enabled(s, step) {
      if !OldsStep(step) {
        ChildKeepsInv(s, step);
      } else if step.OldLook? {
        LookKeepsInv(s);
      } else if step.OldChallenge? {
        ChallengeKeepsInv(s, step.ok);
      } else if step.OldCheckAlive? {
        CheckAliveKeepsInv(s);
      } else if step.OldCheckStop? {
        CheckStopKeepsInv(s);
      } else if step.OldExit? {
        ExitKeepsInv(s);
      } else {
        OtherOldKeepsInv(s, step);
      }
    }
  }

  lemma {:induction false} RunKeepsInv(s: System, steps: seq<Step>)
    requires Inv(s)
    ensures Inv(RunFrom(s, steps))
    decreases |steps|
  {
    if steps != [] {
      StepKeepsInv(s, steps[0]);
      RunKeepsInv(Apply(s, steps[0]), steps[1..]);
    }
  }

  lemma RunInv(steps: seq<Step>)
    ensures Inv(Run(steps))
  {
    RunKeepsInv(INITIAL, steps);
  }

  // ---------------------------------------------------------------- theorems

  /** The old daemon exits only after the replacement's heartbeat advanced, then a challenge
      was made, then the replacement answered that challenge, then it was seen alive, and
      then no stop was active. */
  lemma ExitIsJustified(steps: seq<Step>) returns (i: nat, j: nat, k: nat, m: nat, l: nat, q: nat)
    requires Run(steps).daemon.Exited?
    ensures i < j < k < m < l < q < |Run(steps).log|
    ensures var log := Run(steps).log;
            && log[i].Beat? && log[j].Beat? && log[i].at < log[j].at
            && log[k].Challenge? && log[m] == Answer(log[k].nonce)
            && log[l] == LooksAlive && log[q] == NoStop
  {
    RunInv(steps);
    var log := Run(steps).log;
    q :| Justified(log, q);
    l :| l < q && HasLife(log, l);
    var nonce: Nonce;
    nonce, m :| m < l && AnsweredAfter(log, nonce, m);
    k :| k < m && Challenged(log, k, nonce);
    i, j :| i < j < k && j < |log| && log[i].Beat? && log[j].Beat? && log[i].at < log[j].at;
  }

  /** In every other run the old daemon stays: it has not exited and still holds the lock. */
  lemma OtherwiseKept(steps: seq<Step>)
    ensures !Run(steps).daemon.Exited? <==> Run(steps).lock.OldDaemon?
    ensures Run(steps).daemon.Exited? <==> Exit in Run(steps).log
  {
    RunInv(steps);
  }

  /** Two daemons never serve at once. */
  lemma NeverTwoDaemons(steps: seq<Step>)
    requires Run(steps).child.Serving?
    ensures Run(steps).daemon.Exited? && Run(steps).lock.Replacement?
  {
    RunInv(steps);
  }

  /** A failed restart leaves no replacement behind and cancels the preparations, and the old
      daemon has settled for good. */
  lemma {:induction false} FailedRestartIsClean(s: System, steps: seq<Step>)
    requires Inv(s) && s.daemon.Kept?
    ensures RunFrom(s, steps).daemon.Kept? && RunFrom(s, steps).lock.OldDaemon? && !Alive(RunFrom(s, steps).child)
    ensures !RunFrom(s, steps).child.Absent? ==> RunFrom(s, steps).cancelled
    decreases |steps|
  {
    if steps != [] {
      StepKeepsInv(s, steps[0]);
      FailedRestartIsClean(Apply(s, steps[0]), steps[1..]);
    }
  }

  /** Whether a claim becomes service is decided by the stop intent at the finalization. */
  lemma FinalizationDecides(steps: seq<Step>)
    requires Run(steps).child.Finalizing?
    ensures Run(steps).lock.Replacement?
    ensures var s' := Apply(Run(steps), ChildFinalize);
            if Run(steps).stop then s'.lock.Nobody? && s'.child.Ended? else s'.lock.Replacement? && s'.child.Serving?
  {
    RunInv(steps);
  }

  /** The stop intent is never withdrawn during these steps. */
  ghost predicate StopStays(steps: seq<Step>) {
    forall i | 0 <= i < |steps| :: steps[i] != StopChanges(false)
  }

  /** A replacement that finds a stop active after its claim, and as long as the stop stays,
      never serves, whatever anybody does; once it has left the finalization the lock is not
      with it any more. */
  lemma {:induction false} StopAfterClaimGivesUp(s: System, steps: seq<Step>)
    requires Inv(s) && s.stop && StopStays(steps)
    requires s.child.Finalizing? || s.child.Ended? || s.child.Dead?
    ensures var s' := RunFrom(s, steps);
            && s'.stop && (s'.child.Finalizing? || s'.child.Ended? || s'.child.Dead?)
            && (!s'.child.Finalizing? ==> !s'.lock.Replacement?)
    decreases |steps|
  {
    hide FilesInv, EvidenceInv, BeatsInOrder;
    if steps != [] {
      StepKeepsInv(s, steps[0]);
      assert steps[0] != StopChanges(false);
      StopAfterClaimGivesUp(Apply(s, steps[0]), steps[1..]);
    }
  }

  /** The old daemon has passed its last look at the stop intent. */
  predicate PastLastLook(pc: OldPc) {
    pc.Draining? || pc.Exited?
  }

  /** A stop that becomes active before the old daemon's last look, and stays, keeps the old
      daemon and its lock, and the replacement never serves. */
  lemma {:induction false} StopKeepsOldDaemon(s: System, steps: seq<Step>)
    requires Inv(s) && s.stop && StopStays(steps) && !PastLastLook(s.daemon)
    ensures var s' := RunFrom(s, steps);
            !PastLastLook(s'.daemon) && s'.lock.OldDaemon? && !s'.child.Serving? && Exit !in s'.log
    decreases |steps|
  {
    hide FilesInv, EvidenceInv, BeatsInOrder;
    if steps != [] {
      StepKeepsInv(s, steps[0]);
      assert steps[0] != StopChanges(false);
      StopKeepsOldDaemon(Apply(s, steps[0]), steps[1..]);
    }
  }

  // ---------------------------------------------------------------- the two programs

  lemma {:induction false} RunOneMore(s: System, steps: seq<Step>, step: Step)
    ensures RunFrom(s, steps + [step]) == Apply(RunFrom(s, steps), step)
    decreases |steps|
  {
    if steps == [] {
      assert [step][1..] == [];
    } else {
      assert (steps + [step])[1..] == steps[1..] + [step];
      RunOneMore(Apply(s, steps[0]), steps[1..], step);
    }
  }

  /** A step of the replacement's own program; dying is not. */
  predicate ChildsStep(step: Step) {
    || step.ChildBoot? || step.ChildFirstBeat? || step.ChildCheckStop? || step.ChildTryLock? || step.ChildRead?
    || step.ChildAnswer? || step.ChildBeat? || step.ChildTimeout? || step.ChildFinalize?
  }

  lemma LogGrows(s: System, step: Step)
    ensures s.log <= Apply(s, step).log
  {
  }

  /** The entry was logged at or after position `from`. */
  predicate LoggedSince(log: seq<Entry>, from: nat, e: Entry) {
    exists k | from <= k < |log| :: log[k] == e
  }

  predicate BeatSince(log: seq<Entry>, from: nat) {
    exists k | from <= k < |log| :: log[k].Beat?
  }

  lemma SinceStays(log: seq<Entry>, more: seq<Entry>, from: nat, e: Entry)
    requires log <= more
    ensures LoggedSince(log, from, e) ==> LoggedSince(more, from, e)
    ensures BeatSince(log, from) ==> BeatSince(more, from)
  {
    if k :| from <= k < |log| && log[k] == e {
      assert more[k] == e;
    }
    if k :| from <= k < |log| && log[k].Beat? {
      assert more[k].Beat?;
    }
  }

  /** Both programs, each run against an arbitrary schedule of the other side: before every
      step of the program the others take the next part of the schedule, and a polling loop
      times out when the schedule is used up. */
  class Handover {
    var s: System
    var schedule: seq<seq<Step>>
    ghost var trace: seq<Step>

    ghost predicate Valid()
      reads this
    {
      s == Run(trace)
    }

    constructor (schedule: seq<seq<Step>>)
      ensures Valid() && s == INITIAL && this.schedule == schedule
    {
      s, trace := INITIAL, [];
      this.schedule := schedule;
    }

    method Do(step: Step)
      requires Valid()
      modifies this`s, this`trace
      ensures Valid() && s == Apply(old(s), step) && old(s.log) <= s.log
    {
      RunOneMore(INITIAL, trace, step);
      LogGrows(s, step);
      s := Apply(s, step);
      trace := trace + [step];
    }

    // -------------------------------------------------------------- the old daemon

    /** The schedule is the replacement's and the surroundings'. */
    ghost predicate OthersOnly()
      reads this
    {
      forall i, j | 0 <= i < |schedule| && 0 <= j < |schedule[i]| :: !OldsStep(schedule[i][j])
    }

    method OthersAct()
      requires Valid() && OthersOnly()
      modifies this
      ensures Valid() && OthersOnly() && s.daemon == old(s.daemon)
      ensures |schedule| == if old(schedule) == [] then 0 else |old(schedule)| - 1
    {
      if schedule != [] {
        var steps := schedule[0];
        schedule := schedule[1..];
        for i := 0 to |steps|
          invariant Valid() && s.daemon == old(s.daemon) && schedule == old(schedule)[1..]
        {
          assert !OldsStep(old(schedule)[0][i]);
          Do(steps[i]);
        }
        assert forall i, j | 0 <= i < |schedule| && 0 <= j < |schedule[i]| :: schedule[i][j] == old(schedule)[i + 1][j];
      }
    }

    /** The others act, then the old daemon takes a step. */
    method OldDo(step: Step) returns (ghost before: System)
      requires Valid() && OthersOnly()
      modifies this
      ensures Valid() && OthersOnly() && before.daemon == old(s.daemon) && s == Apply(before, step)
      ensures |schedule| == if old(schedule) == [] then 0 else |old(schedule)| - 1
    {
      OthersAct();
      before := s;
      Do(step);
    }

    /** Poll for an advancing heartbeat. */
    method AwaitAdvancing()
      requires Valid() && OthersOnly() && s.daemon.AwaitBeat?
      modifies this
      ensures Valid() && OthersOnly() && (s.daemon.ClearingAnswer? || s.daemon.Failing?)
    {
      ghost var before;
      while schedule != [] && !s.daemon.ClearingAnswer?
        invariant Valid() && OthersOnly()
        invariant s.daemon.AwaitBeat? || s.daemon.AwaitAdvance? || s.daemon.ClearingAnswer?
        decreases |schedule|
      {
        before := OldDo(OldLook);
      }
      if !s.daemon.ClearingAnswer? {
        before := OldDo(OldTimeout);
      }
    }

    /** Poll for the answer to the challenge. */
    method AwaitAnswer()
      requires Valid() && OthersOnly() && s.daemon.AwaitAnswer?
      modifies this
      ensures Valid() && OthersOnly() && (s.daemon.Ready? || s.daemon.Failing?)
    {
      ghost var before;
      while schedule != [] && s.daemon.AwaitAnswer?
        invariant Valid() && OthersOnly() && (s.daemon.AwaitAnswer? || s.daemon.Answered?)
        decreases |schedule|
      {
        before := OldDo(OldReadAnswer);
      }
      if s.daemon.AwaitAnswer? {
        before := OldDo(OldTimeout);
      } else {
        before := OldDo(OldConfirm);
      }
    }

    /** Wait for an advancing heartbeat, then for the answer to a fresh challenge.  Ready means
        that the answer is on record behind the challenge and that behind the advance. */
    method WaitForReady(entropyOk: bool)
      requires Valid() && OthersOnly() && s.daemon.AwaitBeat?
      modifies this
      ensures Valid() && OthersOnly() && (s.daemon.Ready? || s.daemon.Failing?)
      ensures s.daemon.Ready? ==> HasAnswer(s.log)
    {
      AwaitAdvancing();
      if s.daemon.ClearingAnswer? {
        ghost var before := OldDo(OldClear);
        before := OldDo(OldChallenge(entropyOk));
        if s.daemon.AwaitAnswer? {
          AwaitAnswer();
        }
      }
      RunInv(trace);
    }

    /** The old daemon's whole attempt: it ends by exiting, with the evidence for it on
        record, or keeps running with the lock, and then no replacement is alive. */
    method HotRestart(exeOk: bool, prepareOk: bool, spawnOk: bool, entropyOk: bool)
      requires Valid() && OthersOnly() && s.daemon.Idle?
      modifies this
      ensures Valid() && OthersOnly()
      ensures s.daemon.Exited? || s.daemon.Kept?
      ensures s.daemon.Exited? ==> exists q: nat :: Justified(s.log, q)
      ensures s.daemon.Kept? ==> s.lock.OldDaemon? && !Alive(s.child)
    {
      Launch(exeOk, prepareOk, spawnOk);
      if s.daemon.AwaitBeat? {
        WaitForReady(entropyOk);
        if s.daemon.Ready? {
          Leave();
        }
        if s.daemon.Failing? {
          ghost var before := OldDo(OldTerminate);
        }
      }
      RunInv(trace);
    }

    /** Everything up to the spawn. */
    method Launch(exeOk: bool, prepareOk: bool, spawnOk: bool)
      requires Valid() && OthersOnly() && s.daemon.Idle?
      modifies this
      ensures Valid() && OthersOnly() && (s.daemon.AwaitBeat? || s.daemon.Kept?)
    {
      ghost var before := OldDo(OldStart);
      if s.daemon.Resolving? {
        before := OldDo(OldResolve(exeOk));
      }
      if s.daemon.Preparing? {
        before := OldDo(OldPrepare(prepareOk));
      }
      if s.daemon.Spawning? {
        before := OldDo(OldSpawn(spawnOk));
      }
    }

    /** The last looks, and the exit. */
    method Leave()
      requires Valid() && OthersOnly() && s.daemon.Ready?
      modifies this
      ensures Valid() && OthersOnly() && (s.daemon.Exited? || s.daemon.Failing?)
    {
      ghost var before := OldDo(OldCheckAlive);
      if s.daemon.SeenAlive? {
        before := OldDo(OldCheckStop);
        if s.daemon.Draining? {
          before := OldDo(OldExit);
        }
      }
    }

    // -------------------------------------------------------------- the replacement

    /** The schedule is the old daemon's and the surroundings'. */
    ghost predicate RestOnly()
      reads this
    {
      forall i, j | 0 <= i < |schedule| && 0 <= j < |schedule[i]| :: !ChildsStep(schedule[i][j])
    }

    /** The old daemon and the surroundings act; the replacement may be killed. */
    method RestActs()
      requires Valid() && RestOnly() && !s.child.Absent?
      modifies this
      ensures Valid() && RestOnly() && !s.child.Absent? && (s.child == old(s.child) || s.child.Dead?)
      ensures |schedule| == if old(schedule) == [] then 0 else |old(schedule)| - 1
      ensures old(s.log) <= s.log
    {
      if schedule != [] {
        var steps := schedule[0];
        schedule := schedule[1..];
        for i := 0 to |steps|
          invariant Valid() && schedule == old(schedule)[1..] && old(s.log) <= s.log
          invariant !s.child.Absent? && (s.child == old(s.child) || s.child.Dead?)
        {
          assert !ChildsStep(old(schedule)[0][i]);
          RunInv(trace);
          OthersKeepChild(s, steps[i]);
          Do(steps[i]);
        }
        assert forall i, j | 0 <= i < |schedule| && 0 <= j < |schedule[i]| :: schedule[i][j] == old(schedule)[i + 1][j];
      }
    }

    /** The others act, then the replacement takes a step, if it still lives. */
    method ChildDo(step: Step) returns (ghost before: System)
      requires Valid() && RestOnly() && !s.child.Absent? && ChildsStep(step)
      modifies this
      ensures Valid() && RestOnly() && !s.child.Absent? && (before.child == old(s.child) || before.child.Dead?)
      ensures s == Apply(before, step) && old(s.log) <= before.log <= s.log
      ensures |schedule| == if old(schedule) == [] then 0 else |old(schedule)| - 1
    {
      RestActs();
      before := s;
      Do(step);
      ChildIsThere(before, step);
    }

    /** The replacement waits for the lock, answering challenges, and then makes sure that no
        stop is active: it ends serving, ended or killed, and serves only alone. */
    method WaitForOwnership(writesOk: bool)
      requires Valid() && RestOnly() && s.child.Booting?
      modifies this
      ensures Valid() && RestOnly() && (s.child.Serving? || s.child.Ended? || s.child.Dead?)
      ensures s.child.Serving? ==> s.daemon.Exited? && s.lock.Replacement?
    {
      Claim(writesOk);
      if s.child.LoopHead? {
        ghost var before := ChildDo(ChildTimeout);
      } else if s.child.Finalizing? {
        ghost var before := ChildDo(ChildFinalize);
      }
      RunInv(trace);
    }

    method Claim(writesOk: bool)
      requires Valid() && RestOnly() && s.child.Booting?
      modifies this
      ensures Valid() && RestOnly() && !s.child.Absent?
      ensures s.child.LoopHead? || s.child.Finalizing? || s.child.Ended? || s.child.Dead?
    {
      ghost var before := ChildDo(ChildBoot);
      before := ChildDo(ChildFirstBeat(writesOk));
      while schedule != [] && s.child.LoopHead?
        invariant Valid() && RestOnly() && !s.child.Absent?
        invariant s.child.LoopHead? || s.child.Finalizing? || s.child.Ended? || s.child.Dead?
        decreases |schedule|
      {
        ghost var seen := Round(writesOk);
      }
    }

    /** One round of the wait: look for a stop, try the lock, answer a challenge, beat.  A round
        that comes to its end, with the files writable, has answered the challenge it saw and
        beaten; one that claimed the lock did so after the old daemon's exit. */
    method Round(writesOk: bool) returns (ghost seen: Option<Nonce>)
      requires Valid() && RestOnly() && s.child.LoopHead? && schedule != []
      modifies this
      ensures Valid() && RestOnly() && !s.child.Absent? && |schedule| < |old(schedule)| && old(s.log) <= s.log
      ensures s.child.LoopHead? || s.child.Finalizing? || s.child.Ended? || s.child.Dead?
      ensures s.child.LoopHead? && writesOk ==> BeatSince(s.log, |old(s.log)|)
      ensures s.child.LoopHead? && writesOk && seen.Some? ==> LoggedSince(s.log, |old(s.log)|, Answer(seen.value))
      ensures s.child.Finalizing? ==> s.daemon.Exited? && s.lock.Replacement?
    {
      seen := None;
      ghost var before := ChildDo(ChildCheckStop);
      if s.child.TryLock? {
        before := ChildDo(ChildTryLock);
        if s.child.ReadChallenge? {
          seen := Respond(writesOk, |old(s.log)|);
        }
      }
      RunInv(trace);
    }

    method Respond(writesOk: bool, ghost from: nat) returns (ghost seen: Option<Nonce>)
      requires Valid() && RestOnly() && s.child.ReadChallenge? && from <= |s.log|
      modifies this
      ensures Valid() && RestOnly() && |schedule| <= |old(schedule)| && old(s.log) <= s.log
      ensures s.child.LoopHead? || s.child.Dead?
      ensures s.child.LoopHead? && writesOk ==> BeatSince(s.log, from)
      ensures s.child.LoopHead? && writesOk && seen.Some? ==> LoggedSince(s.log, from, Answer(seen.value))
    {
      ghost var before := ChildDo(ChildRead);
      seen := if s.child.Answering? then Some(s.child.nonce) else None;
      if s.child.Answering? {
        AnswerNow(writesOk, from);
      }
      BeatNow(writesOk, from, seen);
    }

    method AnswerNow(writesOk: bool, ghost from: nat)
      requires Valid() && RestOnly() && s.child.Answering? && from <= |s.log|
      modifies this
      ensures Valid() && RestOnly() && |schedule| <= |old(schedule)| && old(s.log) <= s.log
      ensures s.child.Beating? || s.child.Dead?
      ensures s.child.Beating? && writesOk ==> LoggedSince(s.log, from, Answer(old(s.child.nonce)))
    {
      ghost var before := ChildDo(ChildAnswer(writesOk));
      if s.child.Beating? && writesOk {
        assert s.log[|before.log|] == Answer(old(s.child.nonce));
      }
    }

    method BeatNow(writesOk: bool, ghost from: nat, ghost seen: Option<Nonce>)
      requires Valid() && RestOnly() && (s.child.Beating? || s.child.Dead?) && from <= |s.log|
      requires s.child.Beating? && writesOk && seen.Some? ==> LoggedSince(s.log, from, Answer(seen.value))
      modifies this
      ensures Valid() && RestOnly() && |schedule| <= |old(schedule)| && old(s.log) <= s.log
      ensures s.child.LoopHead? || s.child.Dead?
      ensures s.child.LoopHead? && writesOk ==> BeatSince(s.log, from)
      ensures s.child.LoopHead? && writesOk && seen.Some? ==> LoggedSince(s.log, from, Answer(seen.value))
    {
      ghost var before := ChildDo(ChildBeat(writesOk));
      if s.child.LoopHead? && writesOk {
        assert s.log[|before.log|].Beat?;
      }
      if seen.Some? {
        SinceStays(old(s.log), s.log, from, Answer(seen.value));
      }
    }
  }

  /** Nobody but the replacement moves the replacement, except by killing it. */
  lemma OthersKeepChild(s: System, step: Step)
    requires Inv(s) && !s.child.Absent? && !ChildsStep(step)
    ensures Apply(s, step).child == s.child || Apply(s, step).child.Dead?
  {
    hide FilesInv, EvidenceInv, BeatsInOrder;
  }

  lemma ChildIsThere(s: System, step: Step)
    requires !s.child.Absent? && ChildsStep(step)
    ensures !Apply(s, step).child.Absent?
  {
  }
}
