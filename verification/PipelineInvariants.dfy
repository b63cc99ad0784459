/** The inductive invariant of the pipeline: the lock, the phases of a run, and
    what each run has done so far. */
module PipelineInvariants {
  import opened Options
  import opened Pipeline

  // ---- What a run does ----

  /** Stages that were begun and returned, in order. */
  function StageLog(stages: seq<Stage>): seq<Event>
    decreases |stages|
  {
    if stages == [] then []
    else
      var last := stages[|stages| - 1];
      StageLog(stages[..|stages| - 1]) + [StageBegan(last), StageEnded(last, Returned)]
  }

  /** The stages part of a run that has left its loop. */
  function BodyLog(r: Run): seq<Event>
    requires r.i <= |r.steps|
  {
    match r.stageFailure
    case Some(e) =>
      if r.i < |r.steps|
      then StageLog(r.steps[..r.i]) + [StageBegan(r.steps[r.i]), StageEnded(r.steps[r.i], Threw(e))]
      else []
    case None =>
      if r.aborted && r.i < |r.steps| then StageLog(r.steps[..r.i + 1]) + [StopSeen] else StageLog(r.steps)
  }

  /** How the loop of a run can have ended: every stage returned; or a stop was
      seen after stage i; or stage i threw. */
  predicate LeftLoop(r: Run) {
    && r.i <= |r.steps|
    && (r.aborted <==> r.i < |r.steps|)
    && (r.stageFailure.Some? ==> r.aborted)
  }

  function CleanupLog(r: Run): seq<Event> {
    match r.cleanup
    case None => []
    case Some(c) =>
      if r.cleanupOutcome.Some? then [CleanupBegan(c, r.aborted), CleanupEnded(r.cleanupOutcome.value)]
      else [CleanupBegan(c, r.aborted)]
  }

  /** A stage's exception wins over the cleanup's. */
  function FinalFailure(r: Run): Option<Exc> {
    if r.stageFailure.Some? then r.stageFailure
    else match r.cleanupOutcome
         case Some(Threw(e)) => Some(e)
         case _ => None
  }

  /** A run whose body is over. */
  predicate Complete(r: Run) {
    && LeftLoop(r)
    && (r.cleanup.Some? <==> r.cleanupOutcome.Some?)
    && r.log == BodyLog(r) + CleanupLog(r)
    && r.failure == FinalFailure(r)
  }

  predicate InLoop(r: Run) {
    && r.i <= |r.steps|
    && !r.aborted && r.failure.None? && r.stageFailure.None? && r.cleanupOutcome.None?
  }

  predicate BeforeCleanup(r: Run) {
    LeftLoop(r) && r.cleanupOutcome.None? && r.failure == r.stageFailure
  }

  /** What a run has done when its worker stands at pc. */
  predicate Progress(pc: WorkerPc, r: Run) {
    match pc
    case LoopTest => InLoop(r) && r.log == StageLog(r.steps[..r.i])
    case Enter => InLoop(r) && r.i < |r.steps| && r.log == StageLog(r.steps[..r.i])
    case InStage => InLoop(r) && r.i < |r.steps| && r.log == StageLog(r.steps[..r.i]) + [StageBegan(r.steps[r.i])]
    case CheckStop => InLoop(r) && r.i < |r.steps| && r.log == StageLog(r.steps[..r.i + 1])
    case LeaveLoop => BeforeCleanup(r) && r.log == BodyLog(r)
    case CleanupTest => BeforeCleanup(r) && r.log == BodyLog(r)
    case InCleanup => BeforeCleanup(r) && r.cleanup.Some? && r.log == BodyLog(r) + CleanupLog(r)
    case WantLock => Complete(r)
    case Commit => Complete(r)
    case Unlock => Complete(r)
    case Notify => Complete(r)
    case Exited => Complete(r)
  }

  /** done_ is set from the moment the worker commits. */
  predicate Past(pc: WorkerPc) { pc == Unlock || pc == Notify || pc == Exited }

  /** At most one stage of a run begins with the stop flag set, and then the
      flag stays set and no other stage can begin. */
  predicate LateBound(stop: bool, pc: WorkerPc, r: Run) {
    && r.late <= 1
    && (r.late == 1 && !Past(pc) ==> stop && pc != LoopTest && pc != Enter)
  }

  // ---- The lock ----

  predicate HoldsLock(pc: CallerPc) {
    pc == StartJoin || pc == StartFlag || pc == StartRest || pc == StartSpawn || pc == StartUnlock || pc == InWait
  }

  ghost predicate LockOk(s: State) {
    && (forall t {:trigger Pc(s, t)} :: HoldsLock(Pc(s, t)) <==> s.owner == Some(Caller(t)))
    && (s.owner == Some(Worker) <==> s.worker == Some(Commit) || s.worker == Some(Unlock))
  }

  // ---- The phases ----

  ghost predicate CallersOk(s: State) {
    forall t {:trigger Pc(s, t)} ::
      match Pc(s, t)
      case StartJoin => s.worker.None? || s.worker == Some(Notify) || s.worker == Some(Exited)
      case StartFlag => s.worker.None?
      case StartRest => s.worker.None?
      case StartSpawn => s.worker.None? && !s.done && s.failure.None? && s.current == -1
      case Blocked => s.worker.Some? && s.worker != Some(Exited)
      case _ => true
  }

  ghost predicate WorkerOk(s: State) {
    match s.worker
    case None => true
    case Some(pc) =>
      && s.runs != []
      && (s.done <==> Past(pc))
      && Progress(pc, Last(s))
      && LateBound(s.stop, pc, Last(s))
      && (!s.done ==> s.steps == Last(s).steps && s.cleanup == Last(s).cleanup)
  }

  ghost predicate RunsOk(s: State) {
    forall k | 0 <= k < |s.runs| ::
      if k == |s.runs| - 1 && RunningLocked(s) then !s.runs[k].finished
      else s.runs[k].finished && Complete(s.runs[k]) && s.runs[k].late <= 1
  }

  /** What current_ shows. */
  ghost predicate CurrentOk(s: State) {
    match s.worker
    case None => s.current == -1
    case Some(pc) =>
      && s.runs != []
      && (pc == Enter || pc == InStage || pc == CheckStop ==> s.current == Last(s).i)
      && (pc == CleanupTest || pc == InCleanup || pc == WantLock || pc == Commit || Past(pc) ==> s.current == -1)
  }

  /** What failure_ holds: that of the last run, once it is over. */
  ghost predicate FailureOk(s: State) {
    && (s.done ==> s.runs != [])
    && s.failure == (if s.done then Last(s).failure else None)
  }

  ghost predicate VisibleOk(s: State) { CurrentOk(s) && FailureOk(s) }

  ghost predicate DyingOk(s: State) {
    s.dying ==> forall t {:trigger Pc(s, t)} :: Pc(s, t) == Outside
  }

  ghost predicate Inv(s: State) {
    LockOk(s) && CallersOk(s) && WorkerOk(s) && RunsOk(s) && VisibleOk(s) && DyingOk(s)
  }

  lemma InitialOk()
    ensures Inv(INITIAL)
  {
  }

  // ---- Preservation ----

  lemma StageStarts(r: Run, late: nat)
    requires Progress(Enter, r)
    ensures r.i < |r.steps|
    ensures Progress(InStage, r.(log := r.log + [StageBegan(r.steps[r.i])], late := late))
  {
  }

  lemma StageReturned(r: Run)
    requires Progress(InStage, r)
    ensures r.i < |r.steps|
    ensures Progress(CheckStop, r.(log := r.log + [StageEnded(r.steps[r.i], Returned)]))
  {
    assert r.steps[..r.i + 1][..r.i] == r.steps[..r.i];
  }

  lemma StageThrew(r: Run, e: Exc)
    requires Progress(InStage, r)
    ensures r.i < |r.steps|
    ensures Progress(LeaveLoop, r.(log := r.log + [StageEnded(r.steps[r.i], Threw(e))],
                                   aborted := true, failure := Some(e), stageFailure := Some(e)))
  {
  }

  lemma StopTested(r: Run)
    requires Progress(CheckStop, r)
    ensures Progress(LeaveLoop, r.(aborted := true, log := r.log + [StopSeen]))
    ensures Progress(LoopTest, r.(i := r.i + 1))
  {
  }

  lemma LoopTested(r: Run)
    requires Progress(LoopTest, r)
    ensures r.i < |r.steps| ==> Progress(Enter, r)
    ensures r.i >= |r.steps| ==> Progress(LeaveLoop, r)
  {
    assert r.i == |r.steps| ==> r.steps[..r.i] == r.steps;
  }

  lemma CleanupTested(r: Run)
    requires Progress(CleanupTest, r)
    ensures match r.cleanup
      case None => Progress(WantLock, r)
      case Some(c) => Progress(InCleanup, r.(log := r.log + [CleanupBegan(c, r.aborted)]))
  {
  }

  lemma CleanupFinished(r: Run, outcome: Outcome)
    requires Progress(InCleanup, r)
    ensures Progress(WantLock, r.(log := r.log + [CleanupEnded(outcome)], cleanupOutcome := Some(outcome),
              failure := if outcome.Threw? && r.failure.None? then Some(outcome.exc) else r.failure))
  {
  }

  lemma FinishedRun(r: Run)
    requires Complete(r)
    ensures Complete(r.(finished := true))
  {
  }

  predicate InLoopPart(a: WorkerAct) { a.TestLoop? || a.EnterStage? || a.TestStop? }

  predicate InCleanupPart(a: WorkerAct) { a.StoreIdle? || a.TestCleanup? || a.EndCleanup? || a.LockDone? }

  predicate InClosing(a: WorkerAct) { a.SetDone? || a.UnlockDone? || a.NotifyAll? }

  /** It is enough that the run is where the next place in the body asks. */
  lemma WorkerOkFrom(s: State, a: WorkerAct)
    requires WorkerOk(s) && WorkerEnabled(s, a)
    requires Progress(NextPc(s, a), NextRun(s, a)) && LateBound(s.stop, NextPc(s, a), NextRun(s, a))
    ensures WorkerOk(WorkerApply(s, a))
  {
    hide Progress, LateBound;
  }

  /** One step of the worker advances its run and keeps the configuration it
      reads stable. */
  lemma LoopKeepsWorker(s: State, a: WorkerAct)
    requires WorkerOk(s) && WorkerEnabled(s, a) && InLoopPart(a)
    ensures WorkerOk(WorkerApply(s, a))
  {
    hide InLoop, LeftLoop, BodyLog, StageLog, CleanupLog, Complete, BeforeCleanup, FinalFailure, WorkerApply;
    var r := Last(s);
    match a {
      case TestLoop => LoopTested(r);
      case EnterStage => StageStarts(r, r.late + if s.stop then 1 else 0);
      case TestStop => StopTested(r);
    }
    WorkerOkFrom(s, a);
  }

  lemma StageKeepsWorker(s: State, a: WorkerAct)
    requires WorkerOk(s) && WorkerEnabled(s, a) && a.EndStage?
    ensures WorkerOk(WorkerApply(s, a))
  {
    hide InLoop, LeftLoop, BodyLog, StageLog, CleanupLog, Complete, BeforeCleanup, FinalFailure, WorkerApply;
    var r := Last(s);
    if a.outcome.Threw? { StageThrew(r, a.outcome.exc); } else { StageReturned(r); }
    WorkerOkFrom(s, a);
  }

  lemma CleanupKeepsWorker(s: State, a: WorkerAct)
    requires WorkerOk(s) && WorkerEnabled(s, a) && InCleanupPart(a)
    ensures WorkerOk(WorkerApply(s, a))
  {
    hide InLoop, LeftLoop, BodyLog, StageLog, CleanupLog, Complete, BeforeCleanup, FinalFailure, WorkerApply;
    var r := Last(s);
    match a {
      case StoreIdle =>
      case TestCleanup => CleanupTested(r);
      case EndCleanup(outcome) => CleanupFinished(r, outcome);
      case LockDone =>
    }
    WorkerOkFrom(s, a);
  }

  lemma ClosingKeepsWorker(s: State, a: WorkerAct)
    requires WorkerOk(s) && WorkerEnabled(s, a) && InClosing(a)
    ensures WorkerOk(WorkerApply(s, a))
  {
    hide InLoop, LeftLoop, BodyLog, StageLog, CleanupLog, Complete, BeforeCleanup, FinalFailure, WorkerApply;
    FinishedRun(Last(s));
    WorkerOkFrom(s, a);
  }

  /** The worker touches its own run only, and completes it only when it commits. */
  lemma WorkerTouchesLast(s: State, a: WorkerAct)
    requires WorkerEnabled(s, a)
    ensures var s' := WorkerApply(s, a);
      && |s'.runs| == |s.runs| && (forall k | 0 <= k < |s.runs| - 1 :: s'.runs[k] == s.runs[k])
      && s'.worker == Some(NextPc(s, a))
      && s'.done == (s.done || a.SetDone?)
      && Last(s') == (if a.SetDone? then Last(s).(finished := true) else Last(s').(finished := Last(s).finished))
      && (a.UnlockDone? || a.NotifyAll? ==> Last(s') == Last(s))
  {
    hide Wake, NextPc;
  }

  lemma WorkerKeepsRuns(s: State, a: WorkerAct)
    requires WorkerOk(s) && RunsOk(s) && WorkerEnabled(s, a)
    ensures RunsOk(WorkerApply(s, a))
  {
    hide InLoop, LeftLoop, BodyLog, StageLog, CleanupLog, Complete, BeforeCleanup, FinalFailure, WorkerApply;
    WorkerTouchesLast(s, a);
    assert s.done ==> a.UnlockDone? || a.NotifyAll?;
    if a.SetDone? {
      FinishedRun(Last(s));
    }
  }

  lemma WorkerKeepsLock(s: State, a: WorkerAct)
    requires LockOk(s) && WorkerEnabled(s, a)
    ensures LockOk(WorkerApply(s, a))
  {
    var s' := WorkerApply(s, a);
    if a.NotifyAll? {
      forall t ensures HoldsLock(Pc(s', t)) == HoldsLock(Pc(s, t)) { }
    } else {
      assert s'.callers == s.callers;
      forall t ensures Pc(s', t) == Pc(s, t) { }
    }
  }

  lemma StepKeepsCallers(s: State, a: WorkerAct)
    requires CallersOk(s) && WorkerEnabled(s, a) && !a.NotifyAll?
    ensures CallersOk(WorkerApply(s, a))
  {
    hide HoldsLock, Wake;
    var s' := WorkerApply(s, a);
    assert s'.callers == s.callers && s'.worker.Some? && s'.worker != Some(Exited);
    forall t ensures Pc(s', t) == Pc(s, t) { }
    assert s.worker != Some(Notify) && s.worker != Some(Exited);
  }

  lemma NotifyKeepsCallers(s: State)
    requires CallersOk(s) && WorkerEnabled(s, NotifyAll)
    ensures CallersOk(WorkerApply(s, NotifyAll))
  {
    var s' := WorkerApply(s, NotifyAll);
    forall t ensures Pc(s', t) == Wake(Pc(s, t)) { }
  }

  lemma WorkerKeepsCurrent(s: State, a: WorkerAct)
    requires CurrentOk(s) && WorkerEnabled(s, a)
    ensures CurrentOk(WorkerApply(s, a))
  {
    hide Wake;
    assert Last(WorkerApply(s, a)).i == Last(s).i || a.TestStop?;
  }

  lemma WorkerKeepsFailure(s: State, a: WorkerAct)
    requires FailureOk(s) && WorkerOk(s) && WorkerEnabled(s, a)
    ensures FailureOk(WorkerApply(s, a))
  {
    hide Progress, LateBound, Wake;
    assert s.done ==> a.UnlockDone? || a.NotifyAll?;
  }

  lemma WorkerKeepsDying(s: State, a: WorkerAct)
    requires DyingOk(s) && WorkerEnabled(s, a)
    ensures DyingOk(WorkerApply(s, a))
  {
    var s' := WorkerApply(s, a);
    forall t ensures s.dying ==> Pc(s', t) == Outside {
      assert s.dying ==> Pc(s, t) == Outside;
    }
  }

  lemma WorkerKeepsInv(s: State, a: WorkerAct)
    requires Inv(s) && WorkerEnabled(s, a)
    ensures Inv(WorkerApply(s, a))
  {
    hide LockOk, CallersOk, WorkerOk, RunsOk, CurrentOk, FailureOk, DyingOk, WorkerApply;
    if InLoopPart(a) { LoopKeepsWorker(s, a); }
    else if a.EndStage? { StageKeepsWorker(s, a); }
    else if InCleanupPart(a) { CleanupKeepsWorker(s, a); }
    else { ClosingKeepsWorker(s, a); }
    WorkerKeepsRuns(s, a);
    WorkerKeepsLock(s, a);
    if a.NotifyAll? { NotifyKeepsCallers(s); } else { StepKeepsCallers(s, a); }
    WorkerKeepsCurrent(s, a);
    WorkerKeepsFailure(s, a);
    WorkerKeepsDying(s, a);
  }

  lemma CallerKeepsLock(s: State, t: Tid, a: CallerAct)
    requires LockOk(s) && WorkerOk(s) && CallersOk(s) && CallerEnabled(s, t, a)
    ensures LockOk(CallerApply(s, t, a))
  {
    var s' := CallerApply(s, t, a);
    assert HoldsLock(Pc(s, t)) <==> s.owner == Some(Caller(t));
    forall u | u != t ensures Pc(s', u) == Pc(s, u) { }
  }

  lemma CallerKeepsCallers(s: State, t: Tid, a: CallerAct)
    requires LockOk(s) && WorkerOk(s) && CallersOk(s) && VisibleOk(s) && CallerEnabled(s, t, a)
    ensures CallersOk(CallerApply(s, t, a))
  {
    hide Progress, LateBound;
    var s' := CallerApply(s, t, a);
    assert HoldsLock(Pc(s, t)) <==> s.owner == Some(Caller(t));
    forall u | u != t
      ensures Pc(s', u) == Pc(s, u)
      ensures HoldsLock(Pc(s, t)) ==> !HoldsLock(Pc(s, u))
    {
    }
  }

  /** A run that starts has done nothing yet. */
  lemma FreshRunOk(steps: seq<Stage>, cleanup: Option<Stage>)
    ensures Progress(LoopTest, FreshRun(steps, cleanup))
  {
  }

  lemma CallerKeepsWorker(s: State, t: Tid, a: CallerAct)
    requires LockOk(s) && WorkerOk(s) && CallersOk(s) && CallerEnabled(s, t, a)
    ensures WorkerOk(CallerApply(s, t, a))
  {
    hide Progress;
    FreshRunOk(s.steps, s.cleanup);
  }

  lemma CallerKeepsRuns(s: State, t: Tid, a: CallerAct)
    requires WorkerOk(s) && CallersOk(s) && RunsOk(s) && CallerEnabled(s, t, a)
    ensures RunsOk(CallerApply(s, t, a))
  {
    hide Progress, LateBound, Complete;
    assert Pc(s, t) == Pc(s, t);
  }

  lemma CallerKeepsVisible(s: State, t: Tid, a: CallerAct)
    requires WorkerOk(s) && CallersOk(s) && VisibleOk(s) && CallerEnabled(s, t, a)
    ensures VisibleOk(CallerApply(s, t, a))
  {
    hide Progress, LateBound;
    assert Pc(s, t) == Pc(s, t);
  }

  lemma CallerKeepsInv(s: State, t: Tid, a: CallerAct)
    requires Inv(s) && CallerEnabled(s, t, a)
    ensures Inv(CallerApply(s, t, a))
  {
    hide LockOk, CallersOk, WorkerOk, RunsOk, VisibleOk;
    CallerKeepsLock(s, t, a);
    CallerKeepsCallers(s, t, a);
    CallerKeepsWorker(s, t, a);
    CallerKeepsRuns(s, t, a);
    CallerKeepsVisible(s, t, a);
    assert s.dying ==> Pc(s, t) == Outside;
  }

  lemma StopKeepsInv(s: State, dying: bool)
    requires Inv(s)
    requires dying && !s.dying ==> forall t | t in s.callers :: s.callers[t] == Outside
    requires s.dying ==> dying
    ensures Inv(s.(stop := true, dying := dying))
  {
    hide Progress, Complete;
    var s' := s.(stop := true, dying := dying);
    forall t ensures Pc(s', t) == Pc(s, t) { }
  }

  lemma DestroyJoinKeepsInv(s: State)
    requires Inv(s) && Enabled(s, DestroyJoin)
    ensures Inv(Apply(s, DestroyJoin))
  {
    hide Progress, Complete;
    var s' := Apply(s, DestroyJoin);
    forall t ensures Pc(s', t) == Pc(s, t) == Outside { }
  }

  /** Every action of every thread keeps the invariant. */
  lemma StepKeepsInv(s: State, a: Action)
    requires Inv(s) && Enabled(s, a)
    ensures Inv(Apply(s, a))
  {
    match a {
      case RequestStop => StopKeepsInv(s, s.dying);
      case ByWorker(w) => WorkerKeepsInv(s, w);
      case ByCaller(t, c) => CallerKeepsInv(s, t, c);
      case Destroy => StopKeepsInv(s, true);
      case DestroyJoin => DestroyJoinKeepsInv(s);
    }
  }

  lemma {:induction false} ExecutionKeepsInv(s: State, actions: seq<Action>, s': State)
    requires Inv(s) && Executes(s, actions, s')
    ensures Inv(s')
    decreases |actions|
  {
    if actions != [] {
      StepKeepsInv(s, actions[0]);
      ExecutionKeepsInv(Apply(s, actions[0]), actions[1..], s');
    }
  }

  lemma ReachableOk(s: State)
    requires Reachable(s)
    ensures Inv(s)
  {
    InitialOk();
    var actions :| Executes(INITIAL, actions, s);
    ExecutionKeepsInv(INITIAL, actions, s);
  }
}
