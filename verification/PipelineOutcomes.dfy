/** Which run's failure a waiting caller is told, and runs that show how the
    pipeline can surprise its callers. */
module PipelineOutcomes {
  import opened Options
  import opened Pipeline
  import opened PipelineInvariants
  import opened PipelineTheorems

  // ---- Starts between a call of wait and its return ----

  predicate RestartsIn(actions: seq<Action>) {
    exists k :: 0 <= k < |actions| && Restarts(actions[k])
  }

  /** Nobody is about to create a worker, and none is at work. */
  ghost predicate Quiet(s: State) {
    && (s.done || s.worker.None?)
    && (forall t {:trigger Pc(s, t)} :: Pc(s, t) != StartSpawn)
  }

  /** The n-th run is not the last one, or a new one was announced. */
  predicate Anew(s: State, n: nat) {
    |s.runs| > n || (|s.runs| == n && !s.done && s.worker.None?)
  }

  lemma WorkerStaysQuiet(s: State, a: WorkerAct)
    requires WorkerOk(s) && Quiet(s) && WorkerEnabled(s, a)
    ensures var s' := WorkerApply(s, a);
      Quiet(s') && s'.done == s.done && s'.failure == s.failure && s'.runs == s.runs
  {
    hide Progress, LateBound;
    var s' := WorkerApply(s, a);
    assert NextRun(s, a) == Last(s);
    forall u
      ensures Pc(s', u) != StartSpawn
    {
      assert Pc(s, u) != StartSpawn;
    }
  }

  lemma CallerStaysQuiet(s: State, t: Tid, c: CallerAct)
    requires Quiet(s) && CallerEnabled(s, t, c) && !c.ClearRest?
    ensures var s' := CallerApply(s, t, c);
      Quiet(s') && s'.done == s.done && s'.failure == s.failure && s'.runs == s.runs
  {
    hide NextOwner;
    var s' := CallerApply(s, t, c);
    assert Pc(s, t) != StartSpawn;
    forall u
      ensures Pc(s', u) != StartSpawn
    {
      assert Pc(s, u) != StartSpawn;
    }
  }

  lemma QuietStays(s: State, a: Action)
    requires Inv(s) && Quiet(s) && Enabled(s, a) && !Restarts(a)
    ensures var s' := Apply(s, a);
      Quiet(s') && s'.done == s.done && s'.failure == s.failure && s'.runs == s.runs
  {
    hide WorkerOk, LockOk, CallersOk, RunsOk, VisibleOk, WorkerApply, CallerApply, WorkerEnabled, CallerEnabled;
    match a
    case ByWorker(w) => WorkerStaysQuiet(s, w);
    case ByCaller(t, c) => CallerStaysQuiet(s, t, c);
    case _ => assert forall t :: Pc(Apply(s, a), t) == Pc(s, t);
  }

  lemma RestartIsAnew(s: State, a: Action)
    requires Inv(s) && Enabled(s, a) && Restarts(a)
    ensures Anew(Apply(s, a), |s.runs|)
  {
    hide LockOk, WorkerOk, RunsOk, VisibleOk, DyingOk, NextOwner;
    assert Pc(s, a.t) == StartRest;
  }

  lemma AnewStays(s: State, a: Action, n: nat)
    requires Inv(s) && Enabled(s, a) && Anew(s, n)
    ensures Anew(Apply(s, a), n)
  {
    hide LockOk, WorkerOk, RunsOk, VisibleOk, DyingOk, CallersOk, NextOwner, NextCaller, NextPc, NextRun;
  }

  lemma {:induction false} StaysAnew(s: State, actions: seq<Action>, s': State, n: nat)
    requires Inv(s) && Executes(s, actions, s')
    ensures Anew(s, n) ==> Anew(s', n)
    decreases |actions|
  {
    hide Inv, Enabled, Apply, Anew;
    if actions != [] && Anew(s, n) {
      AnewStays(s, actions[0], n);
      StepKeepsInv(s, actions[0]);
      StaysAnew(Apply(s, actions[0]), actions[1..], s', n);
    }
  }

  lemma {:induction false} QuietOrAnew(s: State, actions: seq<Action>, s': State)
    requires Inv(s) && Quiet(s) && Executes(s, actions, s')
    ensures if RestartsIn(actions) then Anew(s', |s.runs|)
            else s'.done == s.done && s'.failure == s.failure && s'.runs == s.runs
    decreases |actions|
  {
    hide Inv, Enabled, Apply, Anew, Quiet, Restarts;
    if actions != [] {
      var t, rest := Apply(s, actions[0]), actions[1..];
      RestartsSplit(actions);
      StepKeepsInv(s, actions[0]);
      if Restarts(actions[0]) {
        RestartIsAnew(s, actions[0]);
        StaysAnew(t, rest, s', |s.runs|);
      } else {
        QuietStays(s, actions[0]);
        QuietOrAnew(t, rest, s');
      }
    }
  }

  // ---- Which run a waiter is told of ----

  /** In a call of wait or stop that has not yet passed its predicate. */
  predicate BeforePassing(pc: CallerPc) { pc == WantWait || pc == InWait || pc == Blocked }

  /** The n runs are still all there are: the last is in progress or over, nobody
      is about to create another worker, and t has passed only if it is over. */
  ghost predicate Kept(s: State, t: Tid, n: nat) {
    && |s.runs| == n && (s.done || s.worker.Some?)
    && (forall u {:trigger Pc(s, u)} :: Pc(s, u) != StartSpawn)
    && (BeforePassing(Pc(s, t)) || (Pc(s, t) == WantRethrow && s.done))
  }

  lemma CallIsKept(s: State, t: Tid)
    requires Inv(s) && BeforePassing(Pc(s, t)) && (s.done || s.worker.Some?)
    ensures Kept(s, t, |s.runs|)
  {
    hide LockOk, WorkerOk, RunsOk, VisibleOk, DyingOk;
    forall u
      ensures Pc(s, u) != StartSpawn
    {
      assert Pc(s, u) == StartSpawn ==> s.worker.None? && !s.done;
    }
  }

  lemma WorkerKeeps(s: State, t: Tid, n: nat, a: WorkerAct)
    requires Kept(s, t, n) && WorkerEnabled(s, a)
    ensures Kept(WorkerApply(s, a), t, n)
  {
    hide NextRun, NextPc;
    var s' := WorkerApply(s, a);
    forall u
      ensures Pc(s', u) != StartSpawn
    {
      assert Pc(s, u) != StartSpawn;
    }
  }

  lemma CallerKeeps(s: State, t: Tid, n: nat, u: Tid, c: CallerAct)
    requires WorkerOk(s) && Kept(s, t, n) && CallerEnabled(s, u, c) && !c.ClearRest? && !(u == t && c.Rethrow?)
    ensures Kept(CallerApply(s, u, c), t, n)
  {
    hide NextOwner, Progress, LateBound;
    var s' := CallerApply(s, u, c);
    assert Pc(s, u) != StartSpawn;
    forall v
      ensures Pc(s', v) != StartSpawn
    {
      assert Pc(s, v) != StartSpawn;
    }
  }

  lemma KeptStays(s: State, t: Tid, n: nat, a: Action)
    requires Inv(s) && Kept(s, t, n) && Enabled(s, a) && !Restarts(a) && a != ByCaller(t, Rethrow)
    ensures Kept(Apply(s, a), t, n)
  {
    hide LockOk, CallersOk, WorkerOk, RunsOk, VisibleOk, WorkerApply, CallerApply, WorkerEnabled, CallerEnabled;
    match a
    case ByWorker(w) => WorkerKeeps(s, t, n, w);
    case ByCaller(u, c) => CallerKeeps(s, t, n, u, c);
    case RequestStop => assert forall u :: Pc(Apply(s, a), u) == Pc(s, u);
    case Destroy => assert false;
    case DestroyJoin => assert false;
  }

  lemma {:induction false} KeptOrAnew(s: State, t: Tid, n: nat, actions: seq<Action>, s': State)
    requires Inv(s) && Executes(s, actions, s')
    ensures Kept(s, t, n) && ByCaller(t, Rethrow) !in actions ==>
      if RestartsIn(actions) then Anew(s', n) else Kept(s', t, n)
    decreases |actions|
  {
    hide Inv, Enabled, Apply, Anew, Restarts;
    if actions != [] && Kept(s, t, n) && ByCaller(t, Rethrow) !in actions {
      var next, rest := Apply(s, actions[0]), actions[1..];
      assert actions[0] in actions;
      StepKeepsInv(s, actions[0]);
      RestartsSplit(actions);
      if Restarts(actions[0]) {
        RestartIsAnew(s, actions[0]);
        StaysAnew(next, rest, s', n);
      } else {
        KeptStays(s, t, n, actions[0]);
        KeptOrAnew(next, t, n, rest, s');
      }
    }
  }

  lemma RestartsSplit(actions: seq<Action>)
    requires actions != []
    ensures RestartsIn(actions) <==> Restarts(actions[0]) || RestartsIn(actions[1..])
  {
    hide Restarts;
    if k :| 0 <= k < |actions| && Restarts(actions[k]) {
      assert k > 0 ==> Restarts(actions[1..][k - 1]);
    }
    if k :| 0 <= k < |actions| - 1 && Restarts(actions[1..][k]) {
      assert Restarts(actions[k + 1]);
    }
  }

  /** A thread calls wait or stop in s, while a run is in progress or after one has
      ended, and reads the failure in s', after whatever the others have done. It is
      told how the run that it waited for ended if and only if nobody has started a
      new run since the call. After a start it finds no failure while a run is in
      progress, and otherwise that of a run which was started after its call. */
  lemma WaitReportsIff(s: State, t: Tid, actions: seq<Action>, s': State)
    requires Reachable(s) && BeforePassing(Pc(s, t)) && (s.done || s.worker.Some?)
    requires Executes(s, actions, s') && CallerEnabled(s', t, Rethrow) && ByCaller(t, Rethrow) !in actions
    ensures !RestartsIn(actions) <==> s'.done && |s'.runs| == |s.runs|
    ensures !RestartsIn(actions) ==> s'.runs != [] && s'.failure == Last(s').failure
    ensures !RestartsIn(actions) && s.done ==> s'.runs == s.runs && s'.failure == s.failure
    ensures RestartsIn(actions) && s'.done ==> |s'.runs| > |s.runs| && s'.failure == Last(s').failure
    ensures RestartsIn(actions) && !s'.done ==> s'.failure == None
  {
    hide RestartsIn, LockOk, CallersOk, WorkerOk, RunsOk, DyingOk, CurrentOk;
    ReachableOk(s);
    CallIsKept(s, t);
    KeptOrAnew(s, t, |s.runs|, actions, s');
    ExecutionKeepsInv(s, actions, s');
    if s.done {
      QuietOrAnew(s, actions, s');
    }
  }

  /** A call that finds no run, neither in progress nor over, is told of none that
      was started before it: it finds no failure, or that of a later run. */
  lemma WaitWithoutRun(s: State, t: Tid, actions: seq<Action>, s': State)
    requires Reachable(s) && BeforePassing(Pc(s, t)) && !s.done && s.worker.None?
    requires Executes(s, actions, s') && CallerEnabled(s', t, Rethrow) && ByCaller(t, Rethrow) !in actions
    ensures s'.done ==> |s'.runs| > |s.runs| && s'.failure == Last(s').failure
    ensures !s'.done ==> s'.failure == None
  {
    hide LockOk, CallersOk, WorkerOk, RunsOk, DyingOk, CurrentOk;
    ReachableOk(s);
    StaysAnew(s, actions, s', |s.runs|);
    ExecutionKeepsInv(s, actions, s');
  }

  // ---- Building executions ----

  ghost predicate Leads(s: State, s': State) {
    exists actions :: Executes(s, actions, s')
  }

  lemma {:induction false} ExecutesAppend(s: State, actions: seq<Action>, s': State, a: Action)
    requires Executes(s, actions, s') && Enabled(s', a)
    ensures Executes(s, actions + [a], Apply(s', a))
    decreases |actions|
  {
    hide Enabled, Apply;
    if actions == [] {
      assert [a][1..] == [];
      assert Executes(Apply(s, a), [], Apply(s, a));
    } else {
      ExecutesAppend(Apply(s, actions[0]), actions[1..], s', a);
      assert (actions + [a])[1..] == actions[1..] + [a];
    }
  }

  lemma LeadsNowhere(s: State)
    ensures Leads(s, s)
  {
    assert Executes(s, [], s);
  }

  lemma LeadsOn(s: State, s': State, a: Action)
    requires Leads(s, s') && Enabled(s', a)
    ensures Leads(s, Apply(s', a))
  {
    var actions :| Executes(s, actions, s');
    ExecutesAppend(s, actions, s', a);
  }

  lemma Go(from: State, s: State, a: Action) returns (s': State)
    requires Leads(from, s) && Enabled(s, a)
    ensures Leads(from, s') && s' == Apply(s, a)
  {
    LeadsOn(from, s, a);
    s' := Apply(s, a);
  }

  predicate CanStart(s: State, t: Tid) {
    && !s.dying && s.owner.None? && Pc(s, t) == Outside
    && (s.worker.None? || (s.worker == Some(Exited) && s.done))
  }

  lemma StartsAndJoins(from: State, s: State, t: Tid) returns (s': State)
    requires Leads(from, s) && CanStart(s, t)
    ensures Leads(from, s')
    ensures s' == s.(owner := Some(Caller(t)), worker := None, callers := s.callers[t := StartFlag])
  {
    hide Leads;
    s' := Go(from, s, ByCaller(t, CallStart));
    s' := Go(from, s', ByCaller(t, StartCheck));
    s' := Go(from, s', ByCaller(t, JoinOld));
  }

  lemma Clears(from: State, s: State, t: Tid) returns (s': State)
    requires Leads(from, s) && Pc(s, t) == StartFlag
    ensures Leads(from, s')
    ensures s' == s.(stop := false, current := -1, done := false, failure := None, callers := s.callers[t := StartSpawn])
  {
    hide Leads;
    s' := Go(from, s, ByCaller(t, ClearFlag));
    s' := Go(from, s', ByCaller(t, ClearRest));
  }

  lemma Spawns(from: State, s: State, t: Tid) returns (s': State)
    requires Leads(from, s) && Pc(s, t) == StartSpawn && s.owner == Some(Caller(t))
    ensures Leads(from, s')
    ensures s' == s.(worker := Some(LoopTest), owner := None, callers := s.callers[t := Outside],
                     runs := s.runs + [FreshRun(s.steps, s.cleanup)])
  {
    hide Leads;
    s' := Go(from, s, ByCaller(t, Spawn(true)));
    s' := Go(from, s', ByCaller(t, StartReturn));
  }

  /** A start that finds nothing running, with no other thread in between. */
  lemma Started(from: State, s: State, t: Tid) returns (s': State)
    requires Leads(from, s) && CanStart(s, t)
    ensures Leads(from, s')
    ensures s' == s.(stop := false, current := -1, done := false, failure := None, worker := Some(LoopTest),
                     callers := s.callers[t := Outside], runs := s.runs + [FreshRun(s.steps, s.cleanup)])
  {
    hide Leads;
    s' := StartsAndJoins(from, s, t);
    s' := Clears(from, s', t);
    s' := Spawns(from, s', t);
  }

  function Thrown(outcome: Outcome): Option<Exc> { if outcome.Threw? then Some(outcome.exc) else None }

  /** Only the last run differs. */
  predicate SameBut(before: seq<Run>, after: seq<Run>) {
    |after| == |before| > 0 && after[..|after| - 1] == before[..|before| - 1]
  }

  /** The worker finds no stages, and enters the cleanup. */
  lemma NothingToRun(from: State, s: State) returns (s': State)
    requires Leads(from, s) && s.worker == Some(LoopTest) && s.runs != [] && s.steps == [] && s.cleanup.Some?
    ensures Leads(from, s') && SameBut(s.runs, s'.runs) && Last(s').failure == Last(s).failure
    ensures s' == s.(worker := Some(InCleanup), current := -1, runs := s'.runs)
  {
    hide Leads;
    s' := Go(from, s, ByWorker(TestLoop));
    s' := Go(from, s', ByWorker(StoreIdle));
    s' := Go(from, s', ByWorker(TestCleanup));
  }

  /** A run without stages, up to the end of its cleanup. */
  lemma CleanedUp(from: State, s: State, outcome: Outcome) returns (s': State)
    requires Leads(from, s) && s.worker == Some(LoopTest) && s.runs != [] && s.steps == [] && s.cleanup.Some?
    requires Last(s).failure.None?
    ensures Leads(from, s') && SameBut(s.runs, s'.runs) && Last(s').failure == Thrown(outcome)
    ensures s' == s.(worker := Some(WantLock), current := -1, runs := s'.runs)
  {
    hide Leads;
    s' := NothingToRun(from, s);
    s' := Go(from, s', ByWorker(EndCleanup(outcome)));
  }

  /** The worker reports completion and ends. */
  lemma Reported(from: State, s: State) returns (s': State)
    requires Leads(from, s) && s.worker == Some(WantLock) && s.runs != [] && s.owner.None?
    ensures Leads(from, s') && SameBut(s.runs, s'.runs) && Last(s').failure == Last(s).failure
    ensures s' == s.(worker := Some(Exited), done := true, failure := Last(s).failure,
                     callers := map t | t in s.callers :: Wake(s.callers[t]), runs := s'.runs)
  {
    hide Leads;
    s' := Go(from, s, ByWorker(LockDone));
    s' := Go(from, s', ByWorker(SetDone));
    s' := Go(from, s', ByWorker(UnlockDone));
    s' := Go(from, s', ByWorker(NotifyAll));
  }

  lemma Finished(from: State, s: State, outcome: Outcome) returns (s': State)
    requires Leads(from, s) && s.worker == Some(LoopTest) && s.runs != [] && s.steps == [] && s.cleanup.Some?
    requires Last(s).failure.None? && s.owner.None?
    ensures Leads(from, s') && SameBut(s.runs, s'.runs) && Last(s').failure == Thrown(outcome)
    ensures s' == s.(worker := Some(Exited), current := -1, done := true, failure := Thrown(outcome),
                     callers := map t | t in s.callers :: Wake(s.callers[t]), runs := s'.runs)
  {
    hide Leads, Wake;
    s' := CleanedUp(from, s, outcome);
    s' := Reported(from, s');
  }

  // ---- A waiter and a restart ----

  /** One run in progress, with a cleanup but no stages. */
  lemma FirstRun() returns (s: State)
    ensures Leads(INITIAL, s)
    ensures s == INITIAL.(cleanup := Some(0), worker := Some(LoopTest), callers := map[1 := Outside],
                          runs := [FreshRun([], Some(0))])
  {
    hide Leads;
    LeadsNowhere(INITIAL);
    s := Go(INITIAL, INITIAL, ByCaller(1, SetCleanup(Some(0))));
    s := Started(INITIAL, s, 1);
  }

  lemma Locking(from: State, s: State, t: Tid) returns (s': State)
    requires Leads(from, s) && !s.dying && Pc(s, t) == Outside && s.owner.None?
    ensures Leads(from, s') && s' == s.(owner := Some(Caller(t)), callers := s.callers[t := InWait])
  {
    hide Leads;
    s' := Go(from, s, ByCaller(t, CallWait));
    s' := Go(from, s', ByCaller(t, WaitLock));
  }

  /** Thread 2 has found the first run in progress, and sleeps. */
  lemma Sleeper() returns (s: State)
    ensures Reachable(s) && RunningLocked(s) && Pc(s, 2) == Blocked
    ensures s == INITIAL.(cleanup := Some(0), worker := Some(LoopTest), callers := map[1 := Outside, 2 := Blocked],
                          runs := [FreshRun([], Some(0))])
  {
    hide Leads, Reachable;
    s := FirstRun();
    s := Locking(INITIAL, s, 2);
    s := Go(INITIAL, s, ByCaller(2, WaitTest));
    LeadsIsReachable(s);
  }

  lemma LeadsIsReachable(s: State)
    requires Leads(INITIAL, s)
    ensures Reachable(s)
  {
  }

  /** The sleeper takes the lock again, and finds the predicate true. */
  lemma Passes(from: State, s: State) returns (s': State)
    requires Leads(from, s) && Pc(s, 2) == WantWait && s.owner.None? && s.done
    ensures Leads(from, s') && s' == s.(callers := s.callers[2 := WantRethrow])
  {
    hide Leads;
    s' := Go(from, s, ByCaller(2, WaitLock));
    s' := Go(from, s', ByCaller(2, WaitTest));
  }

  /** The early window. Thread 2 sleeps while the first run is in progress. That run
      ends and wakes it; but before it has the lock again, thread 1 starts another
      run, which ends too. Thread 2 passes its predicate only now, and is told how
      the second run ended: with first = Threw(e) and second = Returned the exception
      that aborted the run it waited for is lost. */
  lemma RestartBeforePassing(first: Outcome, second: Outcome) returns (s: State, s': State)
    ensures Reachable(s) && RunningLocked(s) && Pc(s, 2) == Blocked && |s.runs| == 1
    ensures Leads(s, s') && CallerEnabled(s', 2, Rethrow)
    ensures |s'.runs| == 2 && s'.runs[0].failure == Thrown(first) && s'.failure == Thrown(second)
  {
    hide Leads, Reachable;
    s := Sleeper();
    LeadsNowhere(s);
    s' := Finished(s, s, first);
    assert Pc(s', 1) == Outside && Pc(s', 2) == WantWait;
    var first' := s'.runs;
    s' := Started(s, s', 1);
    assert s'.runs[0] == first'[0];
    assert Pc(s', 2) == WantWait;
    var started := s'.runs;
    s' := Finished(s, s', second);
    assert s'.runs[0] == s'.runs[..1][0] == started[..1][0];
    s' := Passes(s, s');
  }

  /** The sleeper has passed its predicate, and another run is in progress. */
  lemma PassedThenStarted(first: Outcome) returns (s: State, s': State)
    ensures Reachable(s) && RunningLocked(s) && Pc(s, 2) == Blocked && |s.runs| == 1
    ensures Leads(s, s') && CallerEnabled(s', 2, Rethrow) && s'.failure == None
    ensures |s'.runs| == 2 && s'.runs[0].failure == Thrown(first)
    ensures s'.worker == Some(LoopTest) && s'.steps == [] && s'.cleanup.Some? && s'.owner.None?
    ensures Last(s').failure.None?
  {
    hide Leads, Reachable;
    s := Sleeper();
    LeadsNowhere(s);
    s' := Finished(s, s, first);
    s' := Passes(s, s');
    var ended := s'.runs;
    s' := Started(s, s', 1);
    assert s'.runs[0] == ended[0];
  }

  /** The late window. However the first run ended, a waiter that has passed its
      predicate can find no failure, while the next run is in progress, and can be
      told how the next run ended. With first = Returned and second = Threw(e) it is
      handed a failure its own run did not have. */
  lemma RestartAfterPassing(first: Outcome, second: Outcome) returns (s: State, s1: State, s2: State)
    ensures Reachable(s) && RunningLocked(s) && Pc(s, 2) == Blocked && |s.runs| == 1
    ensures Leads(s, s1) && CallerEnabled(s1, 2, Rethrow) && s1.failure == None
    ensures Leads(s, s2) && CallerEnabled(s2, 2, Rethrow) && s2.failure == Thrown(second)
    ensures |s1.runs| == |s2.runs| == 2 && s1.runs[0].failure == s2.runs[0].failure == Thrown(first)
  {
    hide Leads, Reachable, RunningLocked;
    s, s1 := PassedThenStarted(first);
    s2 := Finished(s, s1, second);
    assert s2.runs[0] == s2.runs[..1][0] == s1.runs[..1][0];
  }

  // ---- A stage after a stop ----

  /** The worker has been created and the stop comes before its first stage: that
      stage will still run. */
  lemma StopBeforeFirstStage() returns (s: State, s': State)
    ensures Reachable(s) && RunningLocked(s) && s.stop && Committed(s) && Begun(Last(s).log) == []
    ensures Leads(s, s') && s'.runs != [] && Begun(Last(s').log) == [0]
  {
    s := INITIAL;
    LeadsNowhere(INITIAL);
    s := Go(INITIAL, s, ByCaller(1, SetSteps([0])));
    s := Started(INITIAL, s, 1);
    s := Go(INITIAL, s, RequestStop);
    LeadsIsReachable(s);
    ReachableOk(s);
    s' := CommittedStageBegins(s);
  }

  /** A single stage runs, and a stop comes while it does: the run is over, every
      stage ran, and the cleanup is told that it was aborted. */
  lemma AbortedAfterLastStage() returns (s: State)
    ensures Reachable(s) && |s.runs| == 1 && Last(s).finished && Last(s).steps == [0] && Last(s).aborted
    ensures Last(s).log == [StageBegan(0), StageEnded(0, Returned), StopSeen, CleanupBegan(9, true), CleanupEnded(Returned)]
  {
    hide Leads, Reachable;
    s := InLastStage();
    s := Go(INITIAL, s, RequestStop);
    s := Go(INITIAL, s, ByWorker(EndStage(Returned)));
    s := Go(INITIAL, s, ByWorker(TestStop));
    assert Last(s).log == [StageBegan(0), StageEnded(0, Returned), StopSeen];
    s := AbortedCleanup(s);
    LeadsIsReachable(s);
  }

  lemma InLastStage() returns (s: State)
    ensures Leads(INITIAL, s)
    ensures s == INITIAL.(steps := [0], cleanup := Some(9), current := 0, worker := Some(InStage), callers := map[1 := Outside],
                          runs := [FreshRun([0], Some(9)).(log := [StageBegan(0)])])
  {
    hide Leads;
    LeadsNowhere(INITIAL);
    s := Go(INITIAL, INITIAL, ByCaller(1, SetSteps([0])));
    s := Go(INITIAL, s, ByCaller(1, SetCleanup(Some(9))));
    s := Started(INITIAL, s, 1);
    assert s.runs == [FreshRun([0], Some(9))];
    s := FirstStage(s);
  }

  lemma FirstStage(s: State) returns (s': State)
    requires Leads(INITIAL, s) && s.worker == Some(LoopTest) && s.steps == [0] && !s.stop
    requires s.runs == [FreshRun([0], Some(9))]
    ensures Leads(INITIAL, s')
    ensures s' == s.(current := 0, worker := Some(InStage), runs := [FreshRun([0], Some(9)).(log := [StageBegan(0)])])
  {
    hide Leads;
    s' := Go(INITIAL, s, ByWorker(TestLoop));
    assert s'.runs == s.runs;
    s' := Go(INITIAL, s', ByWorker(EnterStage));
    assert [] + [StageBegan(0)] == [StageBegan(0)];
    assert s'.runs == [Last(s')];
  }

  lemma AbortedCleanup(s: State) returns (s': State)
    requires Leads(INITIAL, s) && s.worker == Some(LeaveLoop) && |s.runs| == 1 && s.cleanup == Some(9) && s.owner.None?
    requires Last(s).aborted
    ensures Leads(INITIAL, s') && |s'.runs| == 1
    ensures Last(s').finished && Last(s').steps == Last(s).steps && Last(s').aborted
    ensures Last(s').log == Last(s).log + [CleanupBegan(9, true), CleanupEnded(Returned)]
  {
    hide Leads;
    s' := Go(INITIAL, s, ByWorker(StoreIdle));
    s' := Go(INITIAL, s', ByWorker(TestCleanup));
    s' := Go(INITIAL, s', ByWorker(EndCleanup(Returned)));
    s' := Go(INITIAL, s', ByWorker(LockDone));
    s' := Go(INITIAL, s', ByWorker(SetDone));
  }
}
