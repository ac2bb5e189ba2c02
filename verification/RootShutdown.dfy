/**
  The shutdown root of the process: one handle for both causes of shutdown, a signal and a
  crash. Tasks run concurrently; a run is any sequence of their steps and the environment's.
*/
module RootShutdown {
  import opened Outcomes
  import opened StartupTask

  /** The teardown, in the order it must happen. */
  datatype Action = LeaveRotation | StopAdmission | StopInternal | StopPublic | StopSurfaces | DrainMail

  const TEARDOWN: seq<Action> := [LeaveRotation, StopAdmission, StopInternal, StopPublic, StopSurfaces, DrainMail]

  /** A listener returns once the given teardown action is done; a waiter awaits shutdown; a starter is supervised. */
  datatype Kind = Listener(stoppedBy: nat) | Waiter | Starter

  datatype Pc =
    | Working
    | Triggering(err: Option<ErrTree>)                  // called Trigger, not yet past the once
    | InTeardown(done: nat, err: Option<ErrTree>)       // owns the once, `done` actions finished
    | Finishing(err: Option<ErrTree>)                   // owns the once, context cancelled
    | Draining(err: Option<ErrTree>)                    // a waiter past Trigger, awaiting the workers
    | Returned(err: Option<ErrTree>)

  datatype Task = Task(kind: Kind, pc: Pc)

  datatype Once = Fresh | Busy | Spent

  datatype State = State(
    tasks: seq<Task>,
    once: Once,
    effects: seq<Action>,   // teardown actions performed, in order
    signalled: bool,
    stopped: bool,          // Stop was called
    cancelled: bool)        // the tasks' context is done

  datatype Step =
    | Signal
    | Stop
    | Crash(t: nat, cause: ErrTree)
    | Boot(t: nat, result: Option<ErrTree>)
    | Quit(t: nat)
    | Wake(t: nat)
    | Enter(t: nat)
    | Act(t: nat)
    | Cancel(t: nat)
    | Finish(t: nat)
    | Pass(t: nat)
    | Drain(t: nat)

  function Init(kinds: seq<Kind>): State {
    State(seq(|kinds|, i requires 0 <= i < |kinds| => Task(kinds[i], Working)), Fresh, [], false, false, false)
  }

  /** Steps that need a cause from outside: the signal, Stop, a failing listener, a startup task ending. */
  predicate External(step: Step) { step.Signal? || step.Stop? || step.Crash? || step.Boot? }

  ghost predicate Enabled(s: State, step: Step) {
    match step
    case Signal => !s.signalled
    case Stop => !s.stopped
    case Crash(t, _) => t < |s.tasks| && s.tasks[t].kind.Listener? && s.tasks[t].pc.Working?
    case Boot(t, _) => t < |s.tasks| && s.tasks[t].kind.Starter? && s.tasks[t].pc.Working?
    case Quit(t) =>
      t < |s.tasks| && s.tasks[t].kind.Listener? && s.tasks[t].pc.Working? && s.tasks[t].kind.stoppedBy < |s.effects|
    case Wake(t) => t < |s.tasks| && s.tasks[t].kind.Waiter? && s.tasks[t].pc.Working? && s.cancelled
    case Enter(t) => t < |s.tasks| && s.tasks[t].pc.Triggering? && s.once.Fresh?
    case Act(t) => t < |s.tasks| && s.tasks[t].pc.InTeardown? && s.tasks[t].pc.done < |TEARDOWN|
    case Cancel(t) => t < |s.tasks| && s.tasks[t].pc.InTeardown? && s.tasks[t].pc.done >= |TEARDOWN|
    case Finish(t) => t < |s.tasks| && s.tasks[t].pc.Finishing?
    case Pass(t) => t < |s.tasks| && s.tasks[t].pc.Triggering? && s.once.Spent?
    case Drain(t) => t < |s.tasks| && s.tasks[t].pc.Draining?
  }

  function Put(s: State, t: nat, pc: Pc): State
    requires t < |s.tasks|
  {
    s.(tasks := s.tasks[t := s.tasks[t].(pc := pc)])
  }

  /** Where a call of Trigger leaves its caller: a waiter goes on to drain, anybody else returns. */
  function AfterTrigger(task: Task): Pc
    requires !task.pc.Working?
  {
    if task.kind.Waiter? then Draining(task.pc.err) else Returned(task.pc.err)
  }

  ghost function Apply(s: State, step: Step): State
    requires Enabled(s, step)
  {
    match step
    case Signal => s.(signalled := true, cancelled := true)
    case Stop => s.(stopped := true, cancelled := true)
    case Crash(t, cause) => Put(s, t, Triggering(Some(cause)))
    case Boot(t, result) =>
      if result.Some? && !(s.cancelled && OnlyCanceled(result.value)) then Put(s, t, Triggering(result))
      else Put(s, t, Returned(None))
    case Quit(t) => Put(s, t, Returned(None))
    case Wake(t) => Put(s, t, Triggering(None))
    case Enter(t) => Put(s, t, InTeardown(0, s.tasks[t].pc.err)).(once := Busy)
    case Act(t) =>
      var pc := s.tasks[t].pc;
      Put(s, t, pc.(done := pc.done + 1)).(effects := s.effects + [TEARDOWN[pc.done]])
    case Cancel(t) => Put(s, t, Finishing(s.tasks[t].pc.err)).(cancelled := true)
    case Finish(t) => Put(s, t, AfterTrigger(s.tasks[t])).(once := Spent)
    case Pass(t) => Put(s, t, AfterTrigger(s.tasks[t]))
    case Drain(t) => Put(s, t, Returned(s.tasks[t].pc.err))
  }

  // ---------------------------------------------------------------------------------------
  // What every step keeps
  // ---------------------------------------------------------------------------------------

  predicate Owns(pc: Pc) { pc.InTeardown? || pc.Finishing? }

  ghost predicate TaskOk(s: State, task: Task) {
    match task.pc
    case Working => true
    case Triggering(_) => true
    case InTeardown(done, _) => s.once.Busy? && done <= |TEARDOWN| && s.effects == TEARDOWN[..done]
    case Finishing(_) => s.once.Busy? && s.effects == TEARDOWN && s.cancelled
    case Draining(_) => s.once.Spent?
    case Returned(err) => (err.Some? || task.kind.Waiter?) ==> s.once.Spent?
  }

  ghost predicate HasOwner(s: State) {
    exists t :: 0 <= t < |s.tasks| && Owns(s.tasks[t].pc)
  }

  ghost predicate Inv(s: State) {
    && (forall t :: 0 <= t < |s.tasks| ==> TaskOk(s, s.tasks[t]))
    && (forall t, u :: 0 <= t < u < |s.tasks| ==> !(Owns(s.tasks[t].pc) && Owns(s.tasks[u].pc)))
    && (s.once.Busy? <==> HasOwner(s))
    && (s.once.Fresh? ==> s.effects == [])
    && (s.once.Spent? ==> s.effects == TEARDOWN && s.cancelled)
    && s.effects <= TEARDOWN
    && (s.cancelled ==> s.signalled || s.stopped || s.effects == TEARDOWN)
  }

  lemma InitInv(kinds: seq<Kind>)
    ensures Inv(Init(kinds))
  {}

  /** One task moves and the rest stay as they are. */
  ghost predicate Moves(s: State, s': State, t: nat) {
    t < |s.tasks| == |s'.tasks| && s'.tasks == s.tasks[t := s.tasks[t].(pc := s'.tasks[t].pc)]
  }

  lemma NoOwnerAppears(s: State, s': State, t: nat)
    requires Inv(s) && Moves(s, s', t)
    requires s.once == s'.once && (Owns(s.tasks[t].pc) <==> Owns(s'.tasks[t].pc))
    ensures s'.once.Busy? <==> HasOwner(s')
    ensures forall t, u :: 0 <= t < u < |s'.tasks| ==> !(Owns(s'.tasks[t].pc) && Owns(s'.tasks[u].pc))
  {
    if HasOwner(s) {
      var u :| 0 <= u < |s.tasks| && Owns(s.tasks[u].pc);
      assert Owns(s'.tasks[u].pc);
    }
  }

  lemma EnterKeeps(s: State, t: nat)
    requires Inv(s) && Enabled(s, Enter(t))
    ensures Inv(Apply(s, Enter(t)))
  {
    var s' := Apply(s, Enter(t));
    assert Owns(s'.tasks[t].pc);
    assert forall u :: 0 <= u < |s.tasks| ==> TaskOk(s, s.tasks[u]) && !Owns(s.tasks[u].pc);
  }

  lemma FinishKeeps(s: State, t: nat)
    requires Inv(s) && Enabled(s, Finish(t))
    ensures Inv(Apply(s, Finish(t)))
  {
    var s' := Apply(s, Finish(t));
    assert Owns(s.tasks[t].pc);
    assert forall u :: 0 <= u < |s.tasks| ==> TaskOk(s, s.tasks[u]);
    assert forall u :: 0 <= u < |s'.tasks| ==> !Owns(s'.tasks[u].pc);
  }

  lemma TeardownKeeps(s: State, step: Step)
    requires Inv(s) && Enabled(s, step) && (step.Act? || step.Cancel?)
    ensures Inv(Apply(s, step))
  {
    var s', t := Apply(s, step), step.t;
    assert TaskOk(s, s.tasks[t]);
    NoOwnerAppears(s, s', t);
    forall u | 0 <= u < |s.tasks| ensures TaskOk(s', s'.tasks[u]) {
      assert TaskOk(s, s.tasks[u]);
      assert u != t ==> !Owns(s.tasks[u].pc);
    }
  }

  lemma OutsideKeeps(s: State, step: Step)
    requires Inv(s) && Enabled(s, step) && (step.Signal? || step.Stop?)
    ensures Inv(Apply(s, step))
  {
    assert Apply(s, step).tasks == s.tasks;
    assert HasOwner(s) <==> HasOwner(Apply(s, step));
    assert forall u :: 0 <= u < |s.tasks| ==> TaskOk(s, s.tasks[u]);
  }

  /** A step by a task that neither owns the once nor takes it. */
  predicate Bystanding(step: Step) {
    step.Crash? || step.Boot? || step.Quit? || step.Wake? || step.Pass? || step.Drain?
  }

  /** Such a step changes where that task stands, in order, and nothing else. */
  lemma BystanderMoves(s: State, step: Step)
    requires Enabled(s, step) && Bystanding(step) && TaskOk(s, s.tasks[step.t])
    ensures var s', t := Apply(s, step), step.t;
            && |s'.tasks| == |s.tasks| && s' == Put(s, t, s'.tasks[t].pc)
            && !Owns(s.tasks[t].pc) && !Owns(s'.tasks[t].pc) && TaskOk(s, s'.tasks[t])
  {}

  lemma BystanderKeeps(s: State, step: Step)
    requires Inv(s) && Enabled(s, step) && Bystanding(step)
    ensures Inv(Apply(s, step))
  {
    assert forall u :: 0 <= u < |s.tasks| ==> TaskOk(s, s.tasks[u]);
    BystanderMoves(s, step);
    PutKeeps(s, Apply(s, step), step.t);
  }

  lemma PutKeeps(s: State, s': State, t: nat)
    requires Inv(s) && t < |s.tasks| == |s'.tasks| && s' == Put(s, t, s'.tasks[t].pc)
    requires !Owns(s.tasks[t].pc) && !Owns(s'.tasks[t].pc) && TaskOk(s, s'.tasks[t])
    ensures Inv(s')
  {
    NoOwnerAppears(s, s', t);
    assert forall u :: 0 <= u < |s.tasks| ==> TaskOk(s, s.tasks[u]);
  }

  lemma StepKeeps(s: State, step: Step)
    requires Inv(s) && Enabled(s, step)
    ensures Inv(Apply(s, step))
  {
    match step
    case Signal => OutsideKeeps(s, step);
    case Stop => OutsideKeeps(s, step);
    case Enter(t) => EnterKeeps(s, t);
    case Finish(t) => FinishKeeps(s, t);
    case Act(_) => TeardownKeeps(s, step);
    case Cancel(_) => TeardownKeeps(s, step);
    case _ => BystanderKeeps(s, step);
  }

  // ---------------------------------------------------------------------------------------
  // Progress
  // ---------------------------------------------------------------------------------------

  function Rank(pc: Pc): nat {
    match pc
    case Working => |TEARDOWN| + 5
    case Triggering(_) => |TEARDOWN| + 4
    case InTeardown(done, _) => if done < |TEARDOWN| then |TEARDOWN| - done + 3 else 3
    case Finishing(_) => 2
    case Draining(_) => 1
    case Returned(_) => 0
  }

  function Ranks(tasks: seq<Task>): nat {
    if tasks == [] then 0 else Rank(tasks[0].pc) + Ranks(tasks[1..])
  }

  function Measure(s: State): nat {
    Ranks(s.tasks) + (if s.signalled then 0 else 1) + (if s.stopped then 0 else 1)
  }

  lemma {:induction false} RanksUpdate(tasks: seq<Task>, t: nat, task: Task)
    requires t < |tasks|
    ensures Ranks(tasks[t := task]) == Ranks(tasks) - Rank(tasks[t].pc) + Rank(task.pc)
  {
    if t == 0 {
      assert tasks[t := task][1..] == tasks[1..];
    } else {
      assert tasks[t := task][1..] == tasks[1..][t - 1 := task];
      RanksUpdate(tasks[1..], t - 1, task);
    }
  }

  /** A task's step leaves it fewer to take. */
  lemma RankDrops(s: State, step: Step)
    requires Enabled(s, step) && !step.Signal? && !step.Stop?
    ensures Rank(Apply(s, step).tasks[step.t].pc) < Rank(s.tasks[step.t].pc)
  {}

  lemma OneTaskMoves(s: State, step: Step)
    requires Enabled(s, step) && !step.Signal? && !step.Stop?
    ensures var s' := Apply(s, step);
            && |s'.tasks| == |s.tasks| && s'.tasks == s.tasks[step.t := s'.tasks[step.t]]
            && s'.signalled == s.signalled && s'.stopped == s.stopped
  {}

  lemma StepShrinks(s: State, step: Step)
    requires Enabled(s, step)
    ensures Measure(Apply(s, step)) < Measure(s)
  {
    if step.Signal? || step.Stop? {
      assert Apply(s, step).tasks == s.tasks;
    } else {
      RankDrops(s, step);
      OneTaskMoves(s, step);
      RanksUpdate(s.tasks, step.t, Apply(s, step).tasks[step.t]);
    }
  }

  lemma EffectsGrow(s: State, step: Step)
    requires Enabled(s, step)
    ensures s.effects <= Apply(s, step).effects && (s.cancelled ==> Apply(s, step).cancelled)
  {}

  lemma KindIsKept(s: State, step: Step)
    requires Enabled(s, step) && !step.Signal? && !step.Stop?
    ensures Apply(s, step).tasks[step.t].kind == s.tasks[step.t].kind
  {}

  lemma StepGrows(s: State, step: Step)
    requires Enabled(s, step)
    ensures var s' := Apply(s, step);
            && |s'.tasks| == |s.tasks|
            && (forall i :: 0 <= i < |s.tasks| ==> s'.tasks[i].kind == s.tasks[i].kind)
            && s.effects <= s'.effects && (s.cancelled ==> s'.cancelled)
  {
    EffectsGrow(s, step);
    if step.Signal? || step.Stop? {
      assert Apply(s, step).tasks == s.tasks;
    } else {
      OneTaskMoves(s, step);
      KindIsKept(s, step);
    }
  }

  /** Nothing is left that the tasks can do by themselves. */
  ghost predicate Quiet(s: State) {
    forall step :: Enabled(s, step) ==> External(step)
  }

  /** Shutdown has a cause: the context is done, or some task has called Trigger. */
  ghost predicate Caused(s: State) {
    s.cancelled || !s.once.Fresh? || exists t :: 0 <= t < |s.tasks| && s.tasks[t].pc.Triggering?
  }

  ghost predicate Listening(s: State) {
    forall t :: 0 <= t < |s.tasks| && s.tasks[t].kind.Listener? ==> s.tasks[t].kind.stoppedBy < |TEARDOWN|
  }

  /** Somebody awaits the shutdown. */
  ghost predicate Awaited(s: State) {
    exists w :: 0 <= w < |s.tasks| && s.tasks[w].kind.Waiter?
  }

  lemma QuietOnce(s: State)
    requires Inv(s) && Quiet(s)
    ensures !s.once.Busy?
    ensures forall t :: 0 <= t < |s.tasks| ==> !s.tasks[t].pc.Triggering?
  {
    forall t | 0 <= t < |s.tasks| ensures !Owns(s.tasks[t].pc) {
      assert TaskOk(s, s.tasks[t]);
      assert !Enabled(s, Act(t)) && !Enabled(s, Cancel(t)) && !Enabled(s, Finish(t));
    }
    forall t | 0 <= t < |s.tasks| ensures !s.tasks[t].pc.Triggering? {
      assert !Enabled(s, Enter(t)) && !Enabled(s, Pass(t));
    }
  }

  /**
    Once shutdown has a cause and the tasks have run on, the whole teardown has happened, the
    waiter has returned, and so has every listener; only a startup task may still be at work.
    With no waiter to finish the job, an outside cancellation alone performs no teardown.
  */
  lemma QuietMeansDown(s: State)
    requires Inv(s) && Quiet(s) && Listening(s) && Caused(s)
    requires Awaited(s)
    ensures s.once.Spent? && s.effects == TEARDOWN && s.cancelled
    ensures forall t :: 0 <= t < |s.tasks| && !s.tasks[t].kind.Starter? ==> s.tasks[t].pc.Returned?
  {
    QuietOnce(s);
    var w :| 0 <= w < |s.tasks| && s.tasks[w].kind.Waiter?;
    assert TaskOk(s, s.tasks[w]);
    assert s.cancelled ==> !Enabled(s, Wake(w));
    forall t | 0 <= t < |s.tasks| && !s.tasks[t].kind.Starter? ensures s.tasks[t].pc.Returned? {
      assert TaskOk(s, s.tasks[t]);
      assert !Enabled(s, Wake(t)) && !Enabled(s, Quit(t)) && !Enabled(s, Drain(t));
    }
  }

  /** Without a cause nothing is torn down and nobody who awaits shutdown wakes. */
  lemma QuietWithoutCause(s: State)
    requires Inv(s) && !Caused(s)
    ensures s.effects == []
    ensures forall t :: 0 <= t < |s.tasks| && s.tasks[t].kind.Waiter? ==> s.tasks[t].pc.Working?
  {
    forall t | 0 <= t < |s.tasks| && s.tasks[t].kind.Waiter? ensures s.tasks[t].pc.Working? {
      assert TaskOk(s, s.tasks[t]);
    }
  }

  // ---------------------------------------------------------------------------------------
  // Whole runs
  // ---------------------------------------------------------------------------------------

  ghost predicate Run(s: State, steps: seq<Step>, t: State)
    decreases |steps|
  {
    if steps == [] then s == t
    else Enabled(s, steps[0]) && Run(Apply(s, steps[0]), steps[1..], t)
  }

  lemma {:induction false} RunKeeps(s: State, steps: seq<Step>, t: State)
    requires Inv(s) && Run(s, steps, t)
    ensures Inv(t) && |t.tasks| == |s.tasks|
    ensures forall i :: 0 <= i < |s.tasks| ==> t.tasks[i].kind == s.tasks[i].kind
    ensures |steps| + Measure(t) <= Measure(s)
    ensures s.effects <= t.effects && (s.cancelled ==> t.cancelled)
    decreases |steps|
  {
    if steps != [] {
      StepKeeps(s, steps[0]);
      StepShrinks(s, steps[0]);
      StepGrows(s, steps[0]);
      RunKeeps(Apply(s, steps[0]), steps[1..], t);
    }
  }

  /**
    The teardown leaves the rotation before it stops anything, stops admission before the servers and
    the servers before the other surfaces, and drains the mail last; every action once.
  */
  lemma TeardownOrder()
    ensures |TEARDOWN| == 6 && TEARDOWN[0] == LeaveRotation && TEARDOWN[5] == DrainMail
    ensures TEARDOWN[1] == StopAdmission && TEARDOWN[2] == StopInternal
    ensures TEARDOWN[3] == StopPublic && TEARDOWN[4] == StopSurfaces
    ensures forall a: Action :: a in TEARDOWN
    ensures forall i, j :: 0 <= i < j < |TEARDOWN| ==> TEARDOWN[i] != TEARDOWN[j]
  {
    forall a: Action ensures a in TEARDOWN {
      match a
      case LeaveRotation => assert TEARDOWN[0] == a;
      case StopAdmission => assert TEARDOWN[1] == a;
      case StopInternal => assert TEARDOWN[2] == a;
      case StopPublic => assert TEARDOWN[3] == a;
      case StopSurfaces => assert TEARDOWN[4] == a;
      case DrainMail => assert TEARDOWN[5] == a;
    }
  }

  /** A task whose call of Trigger has returned. */
  ghost predicate PastTrigger(task: Task) {
    task.pc.Draining? || (task.pc.Returned? && (task.kind.Waiter? || task.pc.err.Some?))
  }

  /** Every listener is stopped by some action of the teardown. */
  ghost predicate AllStopped(kinds: seq<Kind>) {
    forall i :: 0 <= i < |kinds| && kinds[i].Listener? ==> kinds[i].stoppedBy < |TEARDOWN|
  }

  /**
    Every run of the shutdown root. Teardown actions happen in order and at most once each; a
    waiter or a failing task returns only after the whole teardown and the cancellation; without
    a signal or Stop the context is cancelled only after the teardown; runs are bounded; and when
    a caused run has gone quiet, teardown is complete and nobody but a startup task is left.
  */
  lemma EveryShutdown(kinds: seq<Kind>, steps: seq<Step>, s: State)
    requires Run(Init(kinds), steps, s)
    ensures s.effects <= TEARDOWN
    ensures forall t :: 0 <= t < |s.tasks| && PastTrigger(s.tasks[t]) ==> s.effects == TEARDOWN && s.cancelled
    ensures s.effects != [] ==> s.effects[0] == LeaveRotation
    ensures forall i :: 0 <= i < |s.effects| ==> (s.effects[i] == DrainMail <==> i == 5)
    ensures s.effects == TEARDOWN ==>
              forall a :: a in s.effects && forall i, j :: 0 <= i < j < |s.effects| ==> s.effects[i] != s.effects[j]
    ensures s.cancelled && !s.signalled && !s.stopped ==> s.effects == TEARDOWN
    ensures |steps| <= Measure(Init(kinds))
    ensures Waiter in kinds && AllStopped(kinds) && Quiet(s) && Caused(s) ==>
              && s.effects == TEARDOWN && s.cancelled
              && forall t :: 0 <= t < |s.tasks| && !s.tasks[t].kind.Starter? ==> s.tasks[t].pc.Returned?
    ensures !Caused(s) ==>
              && s.effects == []
              && forall t :: 0 <= t < |s.tasks| && s.tasks[t].kind.Waiter? ==> s.tasks[t].pc.Working?
  {
    InitInv(kinds);
    RunKeeps(Init(kinds), steps, s);
    TeardownOrder();
    forall t | 0 <= t < |s.tasks| && PastTrigger(s.tasks[t]) ensures s.effects == TEARDOWN && s.cancelled {
      assert TaskOk(s, s.tasks[t]);
    }
    if !Caused(s) {
      QuietWithoutCause(s);
    } else if Waiter in kinds && AllStopped(kinds) && Quiet(s) {
      var w :| 0 <= w < |kinds| && kinds[w] == Waiter;
      assert s.tasks[w].kind == Waiter;
      QuietMeansDown(s);
    }
  }

  /** The error a task has in hand or has returned. */
  ghost predicate Bears(task: Task, e: ErrTree) {
    match task.pc
    case Working => false
    case Triggering(err) => err == Some(e)
    case InTeardown(_, err) => err == Some(e)
    case Finishing(err) => err == Some(e)
    case Draining(err) => err == Some(e)
    case Returned(err) => err == Some(e)
  }

  lemma MoverBears(s: State, step: Step, e: ErrTree)
    requires Enabled(s, step) && !step.Signal? && !step.Stop? && Bears(s.tasks[step.t], e)
    ensures Bears(Apply(s, step).tasks[step.t], e)
  {}

  lemma StepBears(s: State, step: Step, i: nat, e: ErrTree)
    requires Enabled(s, step) && i < |s.tasks| && Bears(s.tasks[i], e)
    ensures i < |Apply(s, step).tasks| && Bears(Apply(s, step).tasks[i], e)
  {
    if step.Signal? || step.Stop? {
      assert Apply(s, step).tasks == s.tasks;
    } else {
      OneTaskMoves(s, step);
      if i == step.t {
        MoverBears(s, step, e);
      }
    }
  }

  lemma {:induction false} ErrorsAreKept(s: State, steps: seq<Step>, t: State, i: nat, e: ErrTree)
    requires Run(s, steps, t) && i < |s.tasks| && Bears(s.tasks[i], e)
    ensures i < |t.tasks| && Bears(t.tasks[i], e)
    decreases |steps|
  {
    if steps != [] {
      StepBears(s, steps[0], i, e);
      ErrorsAreKept(Apply(s, steps[0]), steps[1..], t, i, e);
    }
  }

  /** A run that has gone quiet after a cause is down, whoever started from where. */
  lemma DownAtLast(s: State, steps: seq<Step>, t: State)
    requires Inv(s) && Listening(s) && Awaited(s) && Run(s, steps, t) && Quiet(t) && Caused(t)
    ensures t.effects == TEARDOWN && t.cancelled && t.once.Spent?
  {
    RunKeeps(s, steps, t);
    var w :| 0 <= w < |s.tasks| && s.tasks[w].kind.Waiter?;
    assert t.tasks[w].kind.Waiter?;
    QuietMeansDown(t);
  }

  /** An error in hand is returned in the end, after the whole teardown. */
  lemma FailureIsReported(s: State, i: nat, e: ErrTree, steps: seq<Step>, t: State)
    requires Inv(s) && Listening(s) && Awaited(s) && Run(s, steps, t) && Quiet(t)
    requires i < |s.tasks| && Bears(s.tasks[i], e)
    ensures t.effects == TEARDOWN && t.cancelled
    ensures i < |t.tasks| && t.tasks[i].pc == Returned(Some(e))
  {
    ErrorsAreKept(s, steps, t, i, e);
    RunKeeps(s, steps, t);
    QuietOnce(t);
    assert TaskOk(t, t.tasks[i]) && !Enabled(t, Drain(i));
    DownAtLast(s, steps, t);
  }

  /**
    A crash is reported, not lost, and does not hang the process: after a listener fails, every
    quiet continuation has torn everything down and that listener has returned its error.
  */
  lemma CrashIsReported(s: State, i: nat, e: ErrTree, steps: seq<Step>, t: State)
    requires Inv(s) && Listening(s) && Awaited(s)
    requires Enabled(s, Crash(i, e)) && Run(Apply(s, Crash(i, e)), steps, t) && Quiet(t)
    ensures t.effects == TEARDOWN && t.cancelled
    ensures i < |t.tasks| && t.tasks[i].pc == Returned(Some(e))
  {
    Onwards(s, Crash(i, e));
    FailureIsReported(Apply(s, Crash(i, e)), i, e, steps, t);
  }

  lemma Onwards(s: State, step: Step)
    requires Inv(s) && Listening(s) && Awaited(s) && Enabled(s, step)
    ensures Inv(Apply(s, step)) && Listening(Apply(s, step)) && Awaited(Apply(s, step))
  {
    StepKeeps(s, step);
    StepGrows(s, step);
    var w :| 0 <= w < |s.tasks| && s.tasks[w].kind.Waiter?;
    assert Apply(s, step).tasks[w].kind.Waiter?;
  }

  lemma ReturnedStays(s: State, step: Step, i: nat)
    requires Enabled(s, step) && i < |s.tasks| && s.tasks[i].pc.Returned?
    ensures i < |Apply(s, step).tasks| && Apply(s, step).tasks[i] == s.tasks[i]
  {
    if step.Signal? || step.Stop? {
      assert Apply(s, step).tasks == s.tasks;
    } else {
      OneTaskMoves(s, step);
      assert step.t != i;
    }
  }

  lemma {:induction false} ReturnedIsFinal(s: State, steps: seq<Step>, t: State, i: nat)
    requires Run(s, steps, t) && i < |s.tasks| && s.tasks[i].pc.Returned?
    ensures i < |t.tasks| && t.tasks[i] == s.tasks[i]
    decreases |steps|
  {
    if steps != [] {
      ReturnedStays(s, steps[0], i);
      ReturnedIsFinal(Apply(s, steps[0]), steps[1..], t, i);
    }
  }

  /**
    What becomes of a startup failure. However the run goes on, once it is quiet everything is torn
    down; and the task has returned the failure, unless the context was already cancelled when it
    failed and every leaf of the failure is that cancellation: then, and only then, it returned none.
  */
  lemma StartupFailureIsReported(s: State, i: nat, e: ErrTree, steps: seq<Step>, t: State)
    requires Inv(s) && Listening(s) && Awaited(s)
    requires Enabled(s, Boot(i, Some(e))) && Run(Apply(s, Boot(i, Some(e))), steps, t) && Quiet(t)
    ensures t.effects == TEARDOWN && t.cancelled
    ensures i < |t.tasks| && t.tasks[i].pc == Returned(if s.cancelled && OnlyCanceled(e) then None else Some(e))
  {
    var s1 := Apply(s, Boot(i, Some(e)));
    Onwards(s, Boot(i, Some(e)));
    if s.cancelled && OnlyCanceled(e) {
      ReturnedIsFinal(s1, steps, t, i);
      RunKeeps(s1, steps, t);
      DownAtLast(s1, steps, t);
    } else {
      FailureIsReported(s1, i, e, steps, t);
    }
  }
}
