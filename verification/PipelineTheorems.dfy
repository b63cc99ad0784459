/** What every reachable state of the pipeline guarantees to its callers. */
module PipelineTheorems {
  import opened Options
  import opened Pipeline
  import opened PipelineInvariants

  // ---- Reading a log ----

  /** The stages that began, in order. */
  function Begun(log: seq<Event>): seq<Stage>
    decreases |log|
  {
    if log == [] then []
    else
      var rest, e := Begun(log[..|log| - 1]), log[|log| - 1];
      if e.StageBegan? then rest + [e.stage] else rest
  }

  /** The cleanups that began, with the flag each was given. */
  function Cleanups(log: seq<Event>): seq<(Stage, bool)>
    decreases |log|
  {
    if log == [] then []
    else
      var rest, e := Cleanups(log[..|log| - 1]), log[|log| - 1];
      if e.CleanupBegan? then rest + [(e.cleanup, e.aborted)] else rest
  }

  lemma ReadAppend(log: seq<Event>, e: Event)
    ensures Begun(log + [e]) == if e.StageBegan? then Begun(log) + [e.stage] else Begun(log)
    ensures Cleanups(log + [e]) == if e.CleanupBegan? then Cleanups(log) + [(e.cleanup, e.aborted)] else Cleanups(log)
  {
    assert (log + [e])[..|log|] == log;
  }

  lemma ReadStage(log: seq<Event>, stage: Stage)
    ensures Begun(log + [StageBegan(stage), StageEnded(stage, Returned)]) == Begun(log) + [stage]
    ensures Cleanups(log + [StageBegan(stage), StageEnded(stage, Returned)]) == Cleanups(log)
  {
    hide Begun, Cleanups;
    ReadAppend(log, StageBegan(stage));
    ReadAppend(log + [StageBegan(stage)], StageEnded(stage, Returned));
    assert log + [StageBegan(stage)] + [StageEnded(stage, Returned)] == log + [StageBegan(stage), StageEnded(stage, Returned)];
  }

  lemma {:induction false} ReadStageLog(stages: seq<Stage>)
    ensures Begun(StageLog(stages)) == stages
    ensures Cleanups(StageLog(stages)) == []
    decreases |stages|
  {
    if stages != [] {
      var front, last := stages[..|stages| - 1], stages[|stages| - 1];
      ReadStageLog(front);
      ReadStage(StageLog(front), last);
    }
  }

  /** The stages a run has begun when its worker stands at pc. */
  function BegunAt(r: Run, pc: WorkerPc): seq<Stage>
    requires Progress(pc, r)
  {
    if pc == LoopTest || pc == Enter then r.steps[..r.i]
    else if r.i < |r.steps| then r.steps[..r.i + 1]
    else r.steps
  }

  lemma ReadThrown(r: Run)
    requires LeftLoop(r) && r.stageFailure.Some?
    ensures Begun(BodyLog(r)) == r.steps[..r.i + 1] && Cleanups(BodyLog(r)) == []
  {
    hide Begun, Cleanups, StageLog;
    var before := StageLog(r.steps[..r.i]);
    var began, ended := StageBegan(r.steps[r.i]), StageEnded(r.steps[r.i], Threw(r.stageFailure.value));
    ReadStageLog(r.steps[..r.i]);
    ReadAppend(before, began);
    ReadAppend(before + [began], ended);
    assert BodyLog(r) == before + [began] + [ended];
  }

  lemma ReadBody(r: Run)
    requires LeftLoop(r)
    ensures Begun(BodyLog(r)) == if r.i < |r.steps| then r.steps[..r.i + 1] else r.steps
    ensures Cleanups(BodyLog(r)) == []
  {
    hide Begun, Cleanups, StageLog;
    if r.stageFailure.Some? {
      ReadThrown(r);
    } else if r.i < |r.steps| {
      ReadStageLog(r.steps[..r.i + 1]);
      ReadAppend(StageLog(r.steps[..r.i + 1]), StopSeen);
    } else {
      ReadStageLog(r.steps);
    }
  }

  lemma ReadCleanup(r: Run)
    requires LeftLoop(r)
    ensures Begun(BodyLog(r) + CleanupLog(r)) == Begun(BodyLog(r))
    ensures Cleanups(BodyLog(r) + CleanupLog(r)) == if r.cleanup.Some? then [(r.cleanup.value, r.aborted)] else []
  {
    hide Begun, Cleanups, StageLog, BodyLog;
    ReadBody(r);
    if r.cleanup.Some? {
      var began := CleanupBegan(r.cleanup.value, r.aborted);
      ReadAppend(BodyLog(r), began);
      if r.cleanupOutcome.Some? {
        ReadAppend(BodyLog(r) + [began], CleanupEnded(r.cleanupOutcome.value));
        assert BodyLog(r) + CleanupLog(r) == BodyLog(r) + [began] + [CleanupEnded(r.cleanupOutcome.value)];
      }
    } else {
      assert BodyLog(r) + CleanupLog(r) == BodyLog(r);
    }
  }

  lemma CompleteIsExited(r: Run)
    requires Complete(r)
    ensures Progress(Exited, r)
  {
  }

  lemma ReadProgress(pc: WorkerPc, r: Run)
    requires Progress(pc, r)
    ensures Begun(r.log) == BegunAt(r, pc) && Begun(r.log) <= r.steps
    ensures |Cleanups(r.log)| <= 1
  {
    hide BodyLog, StageLog, CleanupLog;
    if pc == LoopTest || pc == Enter || pc == InStage || pc == CheckStop {
      ReadStageLog(r.steps[..r.i]);
      if pc == CheckStop {
        ReadStageLog(r.steps[..r.i + 1]);
      } else if pc == InStage {
        ReadAppend(StageLog(r.steps[..r.i]), StageBegan(r.steps[r.i]));
      }
    } else {
      ReadBody(r);
      ReadCleanup(r);
    }
  }

  // ---- The promises ----

  /** At any moment, the stages a run has begun are an in-order prefix of the
      stages fixed when it was started, and its cleanup began at most once. */
  lemma StagesArePrefix(s: State, k: nat)
    requires Reachable(s) && k < |s.runs|
    ensures Begun(s.runs[k].log) <= s.runs[k].steps
    ensures |Cleanups(s.runs[k].log)| <= 1
  {
    hide Begun, Cleanups, Progress, LateBound;
    ReachableOk(s);
    var r := s.runs[k];
    if k == |s.runs| - 1 && RunningLocked(s) {
      ReadProgress(s.worker.value, r);
    } else {
      CompleteIsExited(r);
      ReadProgress(Exited, r);
    }
  }

  /** A stage event, or the worker's finding the stop flag set after a stage. */
  predicate OfBody(x: Event) { x.StageBegan? || x.StageEnded? || x.StopSeen? }

  /** A finished run: its cleanup, if one was set, ran exactly once, began after
      everything that the stages did, and was told whether the run was aborted. The
      run was aborted exactly when a stage threw or the stop flag was seen after
      one, be it the last: then every stage can have run all the same. Not aborted
      means that every stage ran. A stage's exception is the one that is kept. */
  lemma FinishedRunMeans(s: State, k: nat)
    requires Reachable(s) && k < |s.runs| && s.runs[k].finished
    ensures var r := s.runs[k];
      && Cleanups(r.log) == (if r.cleanup.Some? then [(r.cleanup.value, r.aborted)] else [])
      && (r.cleanup.Some? ==> r.log != [] && r.log[|r.log| - 1].CleanupEnded?)
      && (forall i, j | 0 <= i < |r.log| && 0 <= j < |r.log| && OfBody(r.log[i]) && r.log[j].CleanupBegan? :: i < j)
      && (r.aborted <==> StopSeen in r.log || r.stageFailure.Some?)
      && (r.stageFailure.Some? <==> exists stage: Stage, e: Exc :: StageEnded(stage, Threw(e)) in r.log)
      && (r.steps == [] ==> !r.aborted)
      && (!r.aborted ==> Begun(r.log) == r.steps)
      && (forall stage: Stage, e: Exc :: StageEnded(stage, Threw(e)) in r.log ==> r.failure == Some(e) && r.aborted)
      && (forall e: Exc :: CleanupEnded(Threw(e)) in r.log && r.stageFailure.None? ==> r.failure == Some(e))
      && (r.failure.Some? ==>
            || r.stageFailure == r.failure
            || CleanupEnded(Threw(r.failure.value)) in r.log)
  {
    hide LockOk, CallersOk, WorkerOk, VisibleOk, DyingOk, Begun, Cleanups, BodyLog, CleanupLog, OfBody;
    ReachableOk(s);
    var r := s.runs[k];
    CompleteIsLeft(r);
    ReadBody(r);
    ReadCleanup(r);
    CompleteFailures(r);
    CompleteAborted(r);
    CompleteOrder(r);
  }

  lemma CompleteIsLeft(r: Run)
    requires Complete(r)
    ensures LeftLoop(r) && r.log == BodyLog(r) + CleanupLog(r)
  {
  }

  lemma {:induction false} StageLogIsClean(stages: seq<Stage>, e: Event)
    requires e in StageLog(stages)
    ensures e.StageBegan? || (e.StageEnded? && e.outcome == Returned)
    decreases |stages|
  {
    if stages != [] && e in StageLog(stages[..|stages| - 1]) {
      StageLogIsClean(stages[..|stages| - 1], e);
    }
  }

  /** What the stages part of a run can have recorded. */
  predicate BodyEvent(r: Run, x: Event) {
    || x.StageBegan?
    || (x.StageEnded? && (x.outcome == Returned || (r.stageFailure.Some? && x.outcome == Threw(r.stageFailure.value))))
    || (x.StopSeen? && r.aborted && r.stageFailure.None?)
  }

  lemma BodyEvents(r: Run, x: Event)
    requires LeftLoop(r) && x in BodyLog(r)
    ensures BodyEvent(r, x)
  {
    hide StageLog;
    if r.stageFailure.Some? {
      if x in StageLog(r.steps[..r.i]) {
        StageLogIsClean(r.steps[..r.i], x);
      }
    } else if r.i < |r.steps| {
      if x in StageLog(r.steps[..r.i + 1]) {
        StageLogIsClean(r.steps[..r.i + 1], x);
      }
    } else {
      StageLogIsClean(r.steps, x);
    }
  }

  lemma CompleteEvents(r: Run)
    requires Complete(r)
    ensures forall x | x in r.log :: BodyEvent(r, x) || x in CleanupLog(r)
  {
    hide BodyLog, CleanupLog, BodyEvent;
    CompleteIsLeft(r);
    forall x | x in r.log
      ensures BodyEvent(r, x) || x in CleanupLog(r)
    {
      if x in BodyLog(r) {
        BodyEvents(r, x);
      }
    }
  }

  lemma CompleteFailures(r: Run)
    requires Complete(r)
    ensures forall stage: Stage, e: Exc :: StageEnded(stage, Threw(e)) in r.log ==> r.failure == Some(e) && r.aborted
    ensures forall e: Exc :: CleanupEnded(Threw(e)) in r.log && r.stageFailure.None? ==> r.failure == Some(e)
    ensures r.failure.Some? ==> r.stageFailure == r.failure || CleanupEnded(Threw(r.failure.value)) in r.log
    ensures r.cleanup.Some? ==> r.log != [] && r.log[|r.log| - 1].CleanupEnded?
  {
    hide BodyLog;
    CompleteEvents(r);
    if r.cleanup.Some? {
      assert r.log[|r.log| - 1] == CleanupLog(r)[1];
    }
  }

  lemma CompleteAborted(r: Run)
    requires Complete(r)
    ensures r.aborted <==> StopSeen in r.log || r.stageFailure.Some?
    ensures r.stageFailure.Some? <==> exists stage: Stage, e: Exc :: StageEnded(stage, Threw(e)) in r.log
    ensures r.steps == [] ==> !r.aborted
  {
    hide StageLog;
    CompleteEvents(r);
    if r.stageFailure.Some? {
      assert StageEnded(r.steps[r.i], Threw(r.stageFailure.value)) in BodyLog(r);
    } else if r.aborted {
      assert StopSeen in BodyLog(r);
    }
  }

  lemma CompleteOrder(r: Run)
    requires Complete(r)
    ensures forall i, j | 0 <= i < |r.log| && 0 <= j < |r.log| && OfBody(r.log[i]) && r.log[j].CleanupBegan? :: i < j
  {
    hide BodyLog, CleanupLog;
    CompleteIsLeft(r);
    CleanupEvents(r);
    var n := |BodyLog(r)|;
    assert forall m | n <= m < |r.log| :: r.log[m] == CleanupLog(r)[m - n];
    forall i, j | 0 <= i < |r.log| && 0 <= j < |r.log| && OfBody(r.log[i]) && r.log[j].CleanupBegan?
      ensures i < n <= j
    {
      if j < n {
        BodyEvents(r, BodyLog(r)[j]);
      }
    }
  }

  lemma CleanupEvents(r: Run)
    ensures forall k | 0 <= k < |CleanupLog(r)| :: !OfBody(CleanupLog(r)[k])
  {
  }

  /** Passing the predicate of wait or stop means that no run that was ever started
      has a stage or its cleanup outstanding. */
  lemma WaitPassesWhenOver(s: State, t: Tid)
    requires Reachable(s) && Pc(s, t) == InWait
    requires NextCaller(s, t, WaitTest) == WantRethrow
    ensures forall k | 0 <= k < |s.runs| :: s.runs[k].finished
  {
    ReachableOk(s);
  }

  /** The predicate holds back exactly while a run is in progress. */
  lemma WaitBlocksWhileRunning(s: State, t: Tid)
    requires Reachable(s) && Pc(s, t) == InWait
    ensures NextCaller(s, t, WaitTest) == Blocked <==> s.runs != [] && !Last(s).finished
  {
    ReachableOk(s);
  }

  /** After the destructor's join nothing is outstanding either. */
  lemma DestroyedWhenOver(s: State)
    requires Reachable(s) && Enabled(s, DestroyJoin)
    ensures forall k | 0 <= k < |s.runs| :: s.runs[k].finished
  {
    ReachableOk(s);
  }

  /** No wake-up is lost: whoever is blocked will still be notified. */
  lemma NoLostWakeup(s: State, t: Tid)
    requires Reachable(s) && Pc(s, t) == Blocked
    ensures s.worker.Some? && s.worker.value != Exited
    ensures s.done ==> s.worker == Some(Unlock) || s.worker == Some(Notify)
  {
    ReachableOk(s);
    assert Pc(s, t) == Blocked;
  }

  /** The configuration is fixed while a run is in progress: what the worker reads
      without the lock is what was set when the run started. */
  lemma ConfigurationStable(s: State)
    requires Reachable(s) && RunningLocked(s)
    ensures s.runs != [] && s.steps == Last(s).steps && s.cleanup == Last(s).cleanup
    ensures forall t, c | CallerEnabled(s, t, c) ::
      CallerApply(s, t, c).steps == s.steps && CallerApply(s, t, c).cleanup == s.cleanup
  {
    ReachableOk(s);
  }

  /** The join made while holding the lock cannot deadlock: the old worker is past
      its last lock acquisition, and at most one lock-free step from its end. */
  lemma JoinCannotDeadlock(s: State, t: Tid)
    requires Reachable(s) && Pc(s, t) == StartJoin
    ensures s.owner == Some(Caller(t))
    ensures
      || Enabled(s, ByCaller(t, JoinOld))
      || (Enabled(s, ByWorker(NotifyAll))
          && Enabled(Apply(s, ByWorker(NotifyAll)), ByCaller(t, JoinOld)))
  {
    ReachableOk(s);
    assert HoldsLock(Pc(s, t));
    if s.worker == Some(Notify) {
      assert Pc(Apply(s, ByWorker(NotifyAll)), t) == StartJoin;
    }
  }

  /** The worker never waits for anything but the lock. */
  lemma WorkerOnlyWaitsForLock(s: State)
    requires Reachable(s) && s.worker.Some? && s.worker.value != Exited
    ensures exists a :: WorkerEnabled(s, a) || (s.worker.value == WantLock && s.owner.Some?)
  {
    ReachableOk(s);
    var pc := s.worker.value;
    var a := match pc
      case LoopTest => TestLoop
      case Enter => EnterStage
      case InStage => EndStage(Returned)
      case CheckStop => TestStop
      case LeaveLoop => StoreIdle
      case CleanupTest => TestCleanup
      case InCleanup => EndCleanup(Returned)
      case WantLock => LockDone
      case Commit => SetDone
      case Unlock => UnlockDone
      case _ => NotifyAll;
    assert WorkerEnabled(s, a) || (pc == WantLock && s.owner.Some?);
  }

  /** current_ shows the running stage, and none while cleaning up or idle. */
  lemma CurrentStageIsExact(s: State)
    requires Reachable(s)
    ensures s.worker == Some(InStage) ==> s.runs != [] && s.current == |Begun(Last(s).log)| - 1
    ensures s.worker.None? || s.worker == Some(InCleanup) || s.done ==> s.current == -1
  {
    ReachableOk(s);
    if s.worker == Some(InStage) {
      ReadProgress(InStage, Last(s));
    }
  }

  /** failure_ is that of the last run once it is over, and empty while one is in
      progress. */
  lemma FailureIsOfLastRun(s: State)
    requires Reachable(s)
    ensures s.done ==> s.runs != [] && Last(s).finished && s.failure == Last(s).failure
    ensures !s.done ==> s.failure == None
  {
    ReachableOk(s);
  }

  predicate Restarts(a: Action) { a.ByCaller? && a.c.ClearRest? }

  lemma OutcomeStays(s: State, a: Action)
    requires Inv(s) && Enabled(s, a) && s.done
    ensures Apply(s, a).done <==> !Restarts(a)
    ensures Apply(s, a).failure == if Restarts(a) then None else s.failure
  {
    hide LockOk, RunsOk, VisibleOk, DyingOk, Progress, LateBound, NextOwner, NextRun, NextPc;
  }

  /** The stored failure of a finished run lasts exactly until the next restart,
      which drops it. PipelineOutcomes says what this means for a waiter. */
  lemma {:induction false} FailureLastsUntilRestart(s: State, actions: seq<Action>, s': State)
    requires Inv(s) && s.done && Executes(s, actions, s')
    requires forall k | 0 <= k < |actions| - 1 :: !Restarts(actions[k])
    ensures actions != [] && Restarts(actions[|actions| - 1]) ==> !s'.done && s'.failure == None
    ensures actions == [] || !Restarts(actions[|actions| - 1]) ==> s'.done && s'.failure == s.failure
    decreases |actions|
  {
    hide Inv, Enabled, Apply;
    if actions != [] {
      var t, rest := Apply(s, actions[0]), actions[1..];
      OutcomeStays(s, actions[0]);
      StepKeepsInv(s, actions[0]);
      if rest == [] {
        assert s' == t;
      } else {
        assert !Restarts(actions[0]);
        assert forall k | 0 <= k < |rest| - 1 :: rest[k] == actions[k + 1];
        FailureLastsUntilRestart(t, rest, s');
      }
    }
  }

  // ---- Stop latency ----

  /** While a run is in progress nothing clears the stop flag. */
  lemma StopIsSticky(s: State, a: Action)
    requires Inv(s) && RunningLocked(s) && Enabled(s, a) && s.stop
    ensures Apply(s, a).stop
  {
    hide WorkerOk, RunsOk, VisibleOk, LockOk, WorkerEnabled, NextPc, NextRun, NextCaller, NextOwner;
    if a.ByCaller? && a.c.ClearFlag? {
      assert false;
    }
  }

  /** How many stages the k-th run has begun with a clear stop flag. */
  function OnTime(s: State, k: nat): int
    requires k < |s.runs|
  {
    |Begun(s.runs[k].log)| - s.runs[k].late
  }

  lemma OnTimeFrozen(s: State, a: Action, k: nat)
    requires Inv(s) && Enabled(s, a) && k < |s.runs|
    requires k == |s.runs| - 1 && RunningLocked(s) ==> s.stop
    ensures k < |Apply(s, a).runs| && OnTime(Apply(s, a), k) == OnTime(s, k)
    ensures k == |Apply(s, a).runs| - 1 && RunningLocked(Apply(s, a)) ==> Apply(s, a).stop
  {
    hide Begun, NextRun, NextPc, NextCaller, NextOwner, WorkerOk, LockOk, RunsOk, VisibleOk, DyingOk;
    var s' := Apply(s, a);
    if RunningLocked(s) && s.stop {
      StopIsSticky(s, a);
    }
    if a.ByWorker? {
      WorkerTouchesLast(s, a.w);
      if k == |s.runs| - 1 {
        OnTimeOfRun(s, a.w);
      }
    }
  }

  lemma BegunByWorker(s: State, a: WorkerAct)
    requires WorkerEnabled(s, a)
    ensures Begun(NextRun(s, a).log) == if a.EnterStage? then Begun(Last(s).log) + [s.steps[Last(s).i]] else Begun(Last(s).log)
  {
    var r := Last(s);
    if a.EnterStage? {
      ReadAppend(r.log, StageBegan(s.steps[r.i]));
    } else if a.EndStage? {
      ReadAppend(r.log, StageEnded(s.steps[r.i], a.outcome));
    } else if a.TestStop? && s.stop {
      ReadAppend(r.log, StopSeen);
    } else if a.TestCleanup? && s.cleanup.Some? {
      ReadAppend(r.log, CleanupBegan(s.cleanup.value, r.aborted));
    } else if a.EndCleanup? {
      ReadAppend(r.log, CleanupEnded(a.outcome));
    }
  }

  lemma OnTimeOfRun(s: State, a: WorkerAct)
    requires WorkerOk(s) && WorkerEnabled(s, a)
    requires RunningLocked(s) ==> s.stop
    ensures |Begun(NextRun(s, a).log)| - NextRun(s, a).late == |Begun(Last(s).log)| - Last(s).late
  {
    hide Begun, Progress;
    BegunByWorker(s, a);
    assert a.EnterStage? ==> RunningLocked(s);
  }

  /** Once a stop was requested in a run, at most one further stage of that run
      ever begins, however the threads are interleaved. */
  lemma {:induction false} AtMostOneMoreStage(s: State, actions: seq<Action>, s': State, k: nat)
    requires Inv(s) && k < |s.runs| && Executes(s, actions, s')
    requires k == |s.runs| - 1 && RunningLocked(s) ==> s.stop
    ensures k < |s'.runs|
    ensures OnTime(s', k) == OnTime(s, k)
    ensures |Begun(s'.runs[k].log)| <= |Begun(s.runs[k].log)| + 1
    decreases |actions|
  {
    ExecutionKeepsInv(s, actions, s');
    if actions != [] {
      OnTimeFrozen(s, actions[0], k);
      StepKeepsInv(s, actions[0]);
      AtMostOneMoreStage(Apply(s, actions[0]), actions[1..], s', k);
    }
    assert s'.runs[k].late <= 1;
  }

  /** The worker has tested the flag and found a stage to run: it will run it
      even if a stop is requested now. */
  predicate Committed(s: State) {
    && s.runs != [] && RunningLocked(s)
    && Last(s).i < |s.steps|
    && (s.worker == Some(LoopTest) || s.worker == Some(Enter))
  }

  /** The k-th run has nothing left to begin. */
  predicate Decided(s: State, k: nat) {
    k < |s.runs| && (k == |s.runs| - 1 && RunningLocked(s) ==> s.stop && !Committed(s))
  }

  lemma DecidedStays(s: State, a: Action, k: nat)
    requires Inv(s) && Enabled(s, a) && Decided(s, k)
    ensures Decided(Apply(s, a), k)
    ensures Begun(Apply(s, a).runs[k].log) == Begun(s.runs[k].log)
  {
    hide Begun, LockOk, RunsOk, VisibleOk, DyingOk, Progress, LateBound, NextOwner;
    var s' := Apply(s, a);
    if RunningLocked(s) && s.stop {
      StopIsSticky(s, a);
    }
    if a.ByWorker? && k == |s.runs| - 1 {
      BegunByWorker(s, a.w);
    }
  }

  lemma {:induction false} DecidedRunsBeginNothing(s: State, actions: seq<Action>, s': State, k: nat)
    requires Inv(s) && Decided(s, k) && Executes(s, actions, s')
    ensures k < |s'.runs| && Begun(s'.runs[k].log) == Begun(s.runs[k].log)
    decreases |actions|
  {
    if actions != [] {
      DecidedStays(s, actions[0], k);
      StepKeepsInv(s, actions[0]);
      DecidedRunsBeginNothing(Apply(s, actions[0]), actions[1..], s', k);
    }
  }

  function CommittedActions(s: State): seq<Action> {
    if s.worker == Some(Enter) then [ByWorker(EnterStage)] else [ByWorker(TestLoop), ByWorker(EnterStage)]
  }

  lemma CommittedStageBegins(s: State) returns (s': State)
    requires Inv(s) && Committed(s)
    ensures Executes(s, CommittedActions(s), s') && |s'.runs| == |s.runs|
    ensures Begun(Last(s').log) == Begun(Last(s).log) + [s.steps[Last(s).i]]
  {
    hide Begun;
    var t := if s.worker == Some(Enter) then s else Apply(s, ByWorker(TestLoop));
    s' := Apply(t, ByWorker(EnterStage));
    BegunByWorker(t, EnterStage);
    assert Executes(t, [ByWorker(EnterStage)], s') by {
      assert [ByWorker(EnterStage)][1..] == [];
      assert Executes(s', [], s');
    }
    assert s.worker != Some(Enter) ==> CommittedActions(s)[1..] == [ByWorker(EnterStage)];
  }

  ghost predicate CanBeginMore(s: State, k: nat)
    requires k < |s.runs|
  {
    exists actions, s' ::
      Executes(s, actions, s') && k < |s'.runs| && |Begun(s'.runs[k].log)| > |Begun(s.runs[k].log)|
  }

  /** After a stop request the remaining stages are skipped exactly when the worker
      was not already committed to the next one: between its test of the flag and
      the call of the next stage, that stage still runs. */
  lemma RemainingStagesSkippedIff(s: State)
    requires Reachable(s) && RunningLocked(s) && s.stop
    ensures s.runs != [] && (CanBeginMore(s, |s.runs| - 1) <==> Committed(s))
  {
    ReachableOk(s);
    var k := |s.runs| - 1;
    if Committed(s) {
      var s' := CommittedStageBegins(s);
      assert |Begun(s'.runs[k].log)| > |Begun(s.runs[k].log)|;
    } else {
      forall actions, s' | Executes(s, actions, s')
        ensures k < |s'.runs| && Begun(s'.runs[k].log) == Begun(s.runs[k].log)
      {
        DecidedRunsBeginNothing(s, actions, s', k);
      }
    }
  }

  // ---- How long a run can still take ----

  /** How many steps of the worker remain at most until it reports completion. */
  function StepsLeft(s: State): nat
    requires s.runs != []
  {
    var left := if Last(s).i < |s.steps| then |s.steps| - Last(s).i else 0;
    match s.worker
    case None => 0
    case Some(LoopTest) => if left == 0 then 6 else if s.stop then 9 else 4 * left + 6
    case Some(Enter) => if s.stop then 8 else 4 * left + 5
    case Some(InStage) => if s.stop then 7 else 4 * left + 4
    case Some(CheckStop) => if s.stop then 6 else 4 * left + 3
    case Some(LeaveLoop) => 5
    case Some(CleanupTest) => 4
    case Some(InCleanup) => 3
    case Some(WantLock) => 2
    case Some(Commit) => 1
    case Some(_) => 0
  }

  /** At most nine once a stop was requested, however many stages there are. */
  lemma StepsLeftBound(s: State)
    requires s.runs != []
    ensures s.stop ==> StepsLeft(s) <= 9
    ensures StepsLeft(s) <= 4 * |s.steps| + 6 || s.stop
  {
  }

  function WorkerSteps(actions: seq<Action>): nat {
    if actions == [] then 0 else (if actions[0].ByWorker? then 1 else 0) + WorkerSteps(actions[1..])
  }

  lemma WorkerGetsCloser(s: State, a: WorkerAct)
    requires WorkerOk(s) && RunningLocked(s) && WorkerEnabled(s, a)
    ensures var s' := WorkerApply(s, a);
      && |s'.runs| == |s.runs| && StepsLeft(s') < StepsLeft(s)
      && (a == SetDone || RunningLocked(s'))
  {
    hide StageLog, BodyLog, Complete, LateBound;
    WorkerTouchesLast(s, a);
    assert s.steps == Last(s).steps;
  }

  lemma OthersGetNoFurther(s: State, a: Action)
    requires Inv(s) && RunningLocked(s) && Enabled(s, a) && !a.ByWorker?
    ensures var s' := Apply(s, a);
      RunningLocked(s') && s'.runs == s.runs && s.runs != [] && StepsLeft(s') <= StepsLeft(s)
  {
    hide LockOk, RunsOk, VisibleOk, DyingOk, NextOwner, NextCaller, Progress, LateBound, StepsLeft;
    assert s.steps == Last(s).steps;
    LessAfterStop(s, Apply(s, a));
  }

  lemma LessAfterStop(s: State, s': State)
    requires s.runs != [] && s'.runs == s.runs && s'.worker == s.worker && s'.steps == s.steps && (s.stop ==> s'.stop)
    requires s.worker.Some? && Progress(s.worker.value, Last(s)) && s.steps == Last(s).steps
    ensures StepsLeft(s') <= StepsLeft(s)
  {
    hide StageLog, BodyLog, Complete;
  }

  lemma StepGetsCloser(s: State, a: Action)
    requires Inv(s) && RunningLocked(s) && Enabled(s, a)
    ensures var s' := Apply(s, a);
      && s.runs != [] && |s'.runs| == |s.runs|
      && StepsLeft(s') <= StepsLeft(s) - (if a.ByWorker? then 1 else 0)
      && (a == ByWorker(SetDone) || RunningLocked(s'))
  {
    hide LockOk, RunsOk, VisibleOk, DyingOk, CallersOk, StepsLeft, WorkerApply, CallerApply, WorkerEnabled, CallerEnabled;
    if a.ByWorker? {
      WorkerGetsCloser(s, a.w);
    } else {
      OthersGetNoFurther(s, a);
    }
  }

  lemma FinishedStays(s: State, a: Action, k: nat)
    requires Inv(s) && Enabled(s, a) && k < |s.runs| && s.runs[k].finished
    ensures k < |Apply(s, a).runs| && Apply(s, a).runs[k].finished
  {
    hide LockOk, VisibleOk, DyingOk, NextOwner, NextPc, NextCaller;
    if a.ByWorker? {
      WorkerTouchesLast(s, a.w);
    }
  }

  lemma UnfinishedIsRunning(s: State, k: nat)
    requires Inv(s) && k < |s.runs|
    ensures !s.runs[k].finished <==> k == |s.runs| - 1 && RunningLocked(s)
  {
  }

  /** Bounded latency: whatever the other threads do, a run is over, cleanup
      included, after that many steps of its worker. */
  lemma {:induction false} RunEndsWithin(s: State, actions: seq<Action>, s': State, k: nat)
    requires Inv(s) && k < |s.runs| && Executes(s, actions, s')
    ensures k < |s'.runs|
    ensures s.runs[k].finished || WorkerSteps(actions) >= StepsLeft(s) ==> s'.runs[k].finished
    decreases |actions|
  {
    hide Inv, Enabled, Apply, StepsLeft;
    UnfinishedIsRunning(s, k);
    if actions == [] {
      if !s.runs[k].finished {
        SomeStepLeft(s);
      }
    } else {
      var t := Apply(s, actions[0]);
      StepKeepsInv(s, actions[0]);
      if s.runs[k].finished {
        FinishedStays(s, actions[0], k);
      } else {
        StepGetsCloser(s, actions[0]);
        RunsKept(s, actions[0]);
        UnfinishedIsRunning(t, k);
      }
      RunEndsWithin(t, actions[1..], s', k);
    }
  }

  lemma RunsKept(s: State, a: Action)
    requires Enabled(s, a)
    ensures |s.runs| <= |Apply(s, a).runs|
  {
  }

  lemma SomeStepLeft(s: State)
    requires Inv(s) && RunningLocked(s)
    ensures s.runs != [] && StepsLeft(s) > 0
  {
  }
}
