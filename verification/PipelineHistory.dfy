/** What each run of the pipeline is, in terms of what was done to the pipeline:
    which stages it was given, when it was asked to stop, and what its code threw. */
module PipelineHistory {
  import opened Options
  import opened Pipeline
  import opened PipelineInvariants
  import opened PipelineTheorems

  // ---- Executions, from their end ----

  /** The state after these actions, those that cannot happen left out. */
  function After(actions: seq<Action>): State
    decreases |actions|
  {
    if actions == [] then INITIAL
    else
      var before, a := After(actions[..|actions| - 1]), actions[|actions| - 1];
      if Enabled(before, a) then Apply(before, a) else before
  }

  lemma {:induction false} LastStep(s: State, actions: seq<Action>, s': State) returns (before: State)
    requires actions != [] && Executes(s, actions, s')
    ensures Executes(s, actions[..|actions| - 1], before)
    ensures Enabled(before, actions[|actions| - 1]) && s' == Apply(before, actions[|actions| - 1])
    decreases |actions|
  {
    hide Enabled, Apply;
    if |actions| == 1 {
      before := s;
      assert Executes(Apply(s, actions[0]), actions[1..], s') && actions[1..] == [];
    } else {
      before := LastStep(Apply(s, actions[0]), actions[1..], s');
      assert actions[1..][..|actions| - 2] == actions[..|actions| - 1][1..];
      assert actions[1..][|actions| - 2] == actions[|actions| - 1];
    }
  }

  lemma {:induction false} AfterExecution(actions: seq<Action>, s: State)
    requires Executes(INITIAL, actions, s)
    ensures s == After(actions)
    ensures actions != [] ==>
      var front, a := actions[..|actions| - 1], actions[|actions| - 1];
      Executes(INITIAL, front, After(front)) && Enabled(After(front), a) && s == Apply(After(front), a)
    decreases |actions|
  {
    hide Enabled, Apply;
    if actions != [] {
      var before := LastStep(INITIAL, actions, s);
      AfterExecution(actions[..|actions| - 1], before);
    }
  }

  /** How many threads have been created. */
  function Spawns(actions: seq<Action>): nat
    decreases |actions|
  {
    if actions == [] then 0
    else
      var a := actions[|actions| - 1];
      Spawns(actions[..|actions| - 1]) + if a.ByCaller? && a.c == Spawn(true) then 1 else 0
  }

  // ---- What a run is given ----

  /** The i-th action sets the stages, with no run in progress. */
  predicate SetsSteps(actions: seq<Action>, i: nat) {
    && i < |actions| && actions[i].ByCaller? && actions[i].c.SetSteps?
    && !RunningLocked(After(actions[..i]))
  }

  predicate SetsCleanup(actions: seq<Action>, i: nat) {
    && i < |actions| && actions[i].ByCaller? && actions[i].c.SetCleanup?
    && !RunningLocked(After(actions[..i]))
  }

  /** These are the stages set last, or none if none have been. */
  ghost predicate GivenSteps(actions: seq<Action>, steps: seq<Stage>) {
    || (exists i: nat :: SetsSteps(actions, i) && actions[i].c.steps == steps
                         && forall j: nat | i < j :: !SetsSteps(actions, j))
    || (steps == [] && forall i: nat :: !SetsSteps(actions, i))
  }

  ghost predicate GivenCleanup(actions: seq<Action>, cleanup: Option<Stage>) {
    || (exists i: nat :: SetsCleanup(actions, i) && actions[i].c.cleanup == cleanup
                         && forall j: nat | i < j :: !SetsCleanup(actions, j))
    || (cleanup == None && forall i: nat :: !SetsCleanup(actions, i))
  }

  lemma SetsAppend(actions: seq<Action>, a: Action, i: nat)
    ensures SetsSteps(actions + [a], i) <==>
      SetsSteps(actions, i) || (i == |actions| && a.ByCaller? && a.c.SetSteps? && !RunningLocked(After(actions)))
    ensures SetsCleanup(actions + [a], i) <==>
      SetsCleanup(actions, i) || (i == |actions| && a.ByCaller? && a.c.SetCleanup? && !RunningLocked(After(actions)))
    ensures SetsSteps(actions, i) || SetsCleanup(actions, i) ==> i < |actions| && (actions + [a])[i] == actions[i]
  {
    hide After, RunningLocked;
    if i < |actions| {
      assert (actions + [a])[..i] == actions[..i];
    } else if i == |actions| {
      assert (actions + [a])[..i] == actions;
    }
  }

  /** One action more: what was set last is what it sets, or as before. */
  lemma GivenAppend(actions: seq<Action>, a: Action, steps: seq<Stage>, cleanup: Option<Stage>)
    ensures var sets := a.ByCaller? && !RunningLocked(After(actions));
      && (sets && a.c.SetSteps? ==> GivenSteps(actions + [a], a.c.steps))
      && (!(sets && a.c.SetSteps?) && GivenSteps(actions, steps) ==> GivenSteps(actions + [a], steps))
      && (sets && a.c.SetCleanup? ==> GivenCleanup(actions + [a], a.c.cleanup))
      && (!(sets && a.c.SetCleanup?) && GivenCleanup(actions, cleanup) ==> GivenCleanup(actions + [a], cleanup))
  {
    hide SetsSteps, SetsCleanup, After, RunningLocked;
    var all := actions + [a];
    forall i: nat {
      SetsAppend(actions, a, i);
    }
    assert all[|actions|] == a;
    assert a.ByCaller? && a.c.SetSteps? && !RunningLocked(After(actions)) ==> SetsSteps(all, |actions|);
    assert a.ByCaller? && a.c.SetCleanup? && !RunningLocked(After(actions)) ==> SetsCleanup(all, |actions|);
  }

  /** What any action does to the configuration and to those of the runs. */
  lemma ConfigurationStep(s: State, a: Action)
    requires Enabled(s, a)
    ensures var s' := Apply(s, a);
      && s'.steps == (if a.ByCaller? && a.c.SetSteps? && !RunningLocked(s) then a.c.steps else s.steps)
      && s'.cleanup == (if a.ByCaller? && a.c.SetCleanup? && !RunningLocked(s) then a.c.cleanup else s.cleanup)
      && |s'.runs| == |s.runs| + (if a.ByCaller? && a.c == Spawn(true) then 1 else 0)
      && (forall k | 0 <= k < |s.runs| :: s'.runs[k].steps == s.runs[k].steps && s'.runs[k].cleanup == s.runs[k].cleanup)
      && (|s'.runs| > |s.runs| ==> s'.runs[|s.runs|].steps == s.steps && s'.runs[|s.runs|].cleanup == s.cleanup)
  {
  }

  /** The p-th action is the one that starts the k-th run, with these stages and
      this cleanup. */
  ghost predicate StartedWith(actions: seq<Action>, p: nat, k: nat, steps: seq<Stage>, cleanup: Option<Stage>) {
    && p < |actions| && actions[p].ByCaller? && actions[p].c == Spawn(true) && Spawns(actions[..p]) == k
    && GivenSteps(actions[..p], steps) && GivenCleanup(actions[..p], cleanup)
  }

  ghost predicate StartedAsGiven(actions: seq<Action>, k: nat, r: Run) {
    exists p: nat :: StartedWith(actions, p, k, r.steps, r.cleanup)
  }

  lemma StartedAppend(actions: seq<Action>, a: Action, p: nat, k: nat, steps: seq<Stage>, cleanup: Option<Stage>)
    ensures StartedWith(actions, p, k, steps, cleanup) ==> StartedWith(actions + [a], p, k, steps, cleanup)
    ensures a.ByCaller? && a.c == Spawn(true) && Spawns(actions) == k && GivenSteps(actions, steps) && GivenCleanup(actions, cleanup) ==>
      StartedWith(actions + [a], |actions|, k, steps, cleanup)
  {
    hide GivenSteps, GivenCleanup, Spawns;
    assert (actions + [a])[..|actions|] == actions;
    if p < |actions| {
      assert (actions + [a])[..p] == actions[..p];
    }
  }

  /** There are as many runs as threads created, and the stages and the cleanup of
      each run are those that had been set last when it was started: calls while a
      run is in progress do not count, and there are none before the first. */
  lemma {:induction false} RunsAreAsGiven(actions: seq<Action>, s: State)
    requires Executes(INITIAL, actions, s)
    ensures |s.runs| == Spawns(actions) && GivenSteps(actions, s.steps) && GivenCleanup(actions, s.cleanup)
    ensures forall k: nat | k < |s.runs| :: StartedAsGiven(actions, k, s.runs[k])
    decreases |actions|
  {
    hide Enabled, Apply, SetsSteps, SetsCleanup, GivenSteps, GivenCleanup, StartedWith, RunningLocked;
    AfterExecution(actions, s);
    if actions == [] {
      NothingGiven();
    } else {
      var front, a := actions[..|actions| - 1], actions[|actions| - 1];
      var before := After(front);
      RunsAreAsGiven(front, before);
      ConfigurationStep(before, a);
      assert actions == front + [a];
      GivenAppend(front, a, before.steps, before.cleanup);
      forall k: nat | k < |s.runs|
        ensures StartedAsGiven(actions, k, s.runs[k])
      {
        if k < |before.runs| {
          assert StartedAsGiven(front, k, before.runs[k]);
          var p: nat :| StartedWith(front, p, k, before.runs[k].steps, before.runs[k].cleanup);
          StartedAppend(front, a, p, k, s.runs[k].steps, s.runs[k].cleanup);
        } else {
          StartedAppend(front, a, 0, k, s.runs[k].steps, s.runs[k].cleanup);
        }
      }
    }
  }

  lemma NothingGiven()
    ensures GivenSteps([], []) && GivenCleanup([], None)
  {
  }

  // ---- Being asked to stop ----

  predicate AsksStop(a: Action) { a.RequestStop? || a.Destroy? || (a.ByCaller? && a.c.CallStop?) }

  predicate ClearsStop(a: Action) { a.ByCaller? && a.c.ClearFlag? }

  /** Somebody has asked for a stop since the flag was last cleared. */
  predicate Asked(actions: seq<Action>) {
    exists i :: 0 <= i < |actions| && AsksStop(actions[i]) && forall j | i < j < |actions| :: !ClearsStop(actions[j])
  }

  lemma AskedAppend(actions: seq<Action>, a: Action)
    ensures Asked(actions + [a]) <==> AsksStop(a) || (Asked(actions) && !ClearsStop(a))
  {
    var all := actions + [a];
    assert all[|actions|] == a;
    if Asked(actions) && !ClearsStop(a) {
      var i :| 0 <= i < |actions| && AsksStop(actions[i]) && forall j | i < j < |actions| :: !ClearsStop(actions[j]);
      assert all[i] == actions[i];
    }
    if Asked(all) && !AsksStop(a) {
      var i :| 0 <= i < |all| && AsksStop(all[i]) && forall j | i < j < |all| :: !ClearsStop(all[j]);
      assert all[i] == actions[i] && forall j | i < j < |actions| :: !ClearsStop(actions[j]) by {
        assert forall j | 0 <= j < |actions| :: all[j] == actions[j];
      }
    }
  }

  // ---- What a worker did in a run ----

  /** The q-th action is a step of the worker of the k-th run. */
  predicate StepIn(actions: seq<Action>, q: nat, k: nat, w: WorkerAct) {
    q < |actions| && actions[q] == ByWorker(w) && Spawns(actions[..q]) == k + 1
  }

  lemma StepInAppend(actions: seq<Action>, a: Action, q: nat, k: nat, w: WorkerAct)
    ensures StepIn(actions + [a], q, k, w) <==>
      StepIn(actions, q, k, w) || (q == |actions| && a == ByWorker(w) && Spawns(actions) == k + 1)
    ensures StepIn(actions, q, k, w) ==> q < |actions| && (actions + [a])[..q] == actions[..q]
  {
    hide Spawns;
    if q < |actions| {
      assert (actions + [a])[..q] == actions[..q];
    } else if q == |actions| {
      assert (actions + [a])[..q] == actions;
    }
  }

  ghost predicate Did(actions: seq<Action>, k: nat, w: WorkerAct) { exists q: nat :: StepIn(actions, q, k, w) }

  /** The worker of the k-th run tested the flag when a stop had been asked for. */
  ghost predicate FoundStop(actions: seq<Action>, k: nat) {
    exists q: nat :: StepIn(actions, q, k, TestStop) && Asked(actions[..q])
  }

  lemma DidAppend(actions: seq<Action>, a: Action, k: nat, w: WorkerAct)
    ensures Did(actions + [a], k, w) <==> Did(actions, k, w) || (a == ByWorker(w) && Spawns(actions) == k + 1)
    ensures FoundStop(actions + [a], k)
      <==> FoundStop(actions, k) || (a == ByWorker(TestStop) && Asked(actions) && Spawns(actions) == k + 1)
  {
    hide StepIn, Asked, Spawns;
    forall q: nat, x {
      StepInAppend(actions, a, q, k, x);
    }
    assert (actions + [a])[..|actions|] == actions;
    assert a == ByWorker(w) && Spawns(actions) == k + 1 ==> StepIn(actions + [a], |actions|, k, w);
    assert a == ByWorker(TestStop) && Spawns(actions) == k + 1 ==> StepIn(actions + [a], |actions|, k, TestStop);
  }

  /** What one action adds to the record of a run, if it is a step of its worker. */
  ghost predicate Records(r: Run, r': Run, w: WorkerAct, stop: bool) {
    && (forall e: Exc :: r'.stageFailure == Some(e) <==> r.stageFailure == Some(e) || w == EndStage(Threw(e)))
    && (forall o: Outcome :: r'.cleanupOutcome == Some(o) <==> r.cleanupOutcome == Some(o) || w == EndCleanup(o))
    && (StopSeen in r'.log <==> StopSeen in r.log || (w == TestStop && stop))
  }

  lemma WorkerRecords(s: State, w: WorkerAct)
    requires WorkerOk(s) && WorkerEnabled(s, w)
    ensures Records(Last(s), NextRun(s, w), w, s.stop)
  {
    hide StageLog, BodyLog, CleanupLog, Complete, LateBound, FinalFailure;
  }

  lemma RecordStep(s: State, a: Action, k: nat)
    requires Inv(s) && Enabled(s, a) && k < |s.runs| <= |Apply(s, a).runs|
    ensures var r, r' := s.runs[k], Apply(s, a).runs[k];
      if a.ByWorker? && k == |s.runs| - 1 then Records(r, r', a.w, s.stop)
      else r'.stageFailure == r.stageFailure && r'.cleanupOutcome == r.cleanupOutcome && r'.log == r.log
  {
    hide LockOk, CallersOk, WorkerOk, RunsOk, VisibleOk, DyingOk, Records, NextRun, NextPc;
    if a.ByWorker? {
      WorkerRecords(s, a.w);
    }
  }

  /** The record of the k-th run is what its worker's steps were. */
  ghost predicate RecordedAs(actions: seq<Action>, k: nat, r: Run) {
    && (forall e: Exc :: r.stageFailure == Some(e) <==> Did(actions, k, EndStage(Threw(e))))
    && (forall o: Outcome :: r.cleanupOutcome == Some(o) <==> Did(actions, k, EndCleanup(o)))
    && (StopSeen in r.log <==> FoundStop(actions, k))
  }

  /** Nothing has been done yet in a run that has not started. */
  lemma {:induction false} NothingBefore(actions: seq<Action>, k: nat, w: WorkerAct)
    requires Spawns(actions) <= k
    ensures !Did(actions, k, w)
  {
    forall q: nat | q < |actions|
      ensures Spawns(actions[..q]) <= k
    {
      SpawnsGrow(actions, q);
    }
  }

  lemma {:induction false} SpawnsGrow(actions: seq<Action>, q: nat)
    requires q <= |actions|
    ensures Spawns(actions[..q]) <= Spawns(actions)
    decreases |actions|
  {
    if q < |actions| {
      SpawnsGrow(actions[..|actions| - 1], q);
      assert actions[..|actions| - 1][..q] == actions[..q];
    } else {
      assert actions[..q] == actions;
    }
  }

  lemma RunRecorded(front: seq<Action>, a: Action, before: State, k: nat)
    requires Executes(INITIAL, front, before) && Enabled(before, a) && k < |Apply(before, a).runs|
    requires before.stop <==> Asked(front)
    requires k < |before.runs| ==> RecordedAs(front, k, before.runs[k])
    ensures RecordedAs(front + [a], k, Apply(before, a).runs[k])
  {
    hide Enabled, Apply, Did, FoundStop, Asked, Inv, Executes;
    InitialOk();
    ExecutionKeepsInv(INITIAL, front, before);
    RunsAreAsGiven(front, before);
    ConfigurationStep(before, a);
    var r' := Apply(before, a).runs[k];
    forall w
      ensures Did(front + [a], k, w) <==> Did(front, k, w) || (a == ByWorker(w) && Spawns(front) == k + 1)
    {
      DidAppend(front, a, k, w);
    }
    DidAppend(front, a, k, TestStop);
    if k < |before.runs| {
      RecordStep(before, a, k);
    } else {
      NewRecord(before, a);
      forall w
        ensures !Did(front, k, w)
      {
        NothingBefore(front, k, w);
      }
      NoStopBefore(front, k);
    }
  }

  lemma NoStopBefore(actions: seq<Action>, k: nat)
    requires Spawns(actions) <= k
    ensures !FoundStop(actions, k)
  {
    hide Spawns;
    NothingBefore(actions, k, TestStop);
  }

  lemma NewRecord(s: State, a: Action)
    requires Enabled(s, a) && |Apply(s, a).runs| > |s.runs|
    ensures var r := Apply(s, a).runs[|s.runs|];
      r.stageFailure.None? && r.cleanupOutcome.None? && r.log == [] && a.ByCaller?
  {
  }

  /** The stop flag is set exactly if somebody has asked for a stop since it was
      last cleared. Each run keeps what its own code threw, and saw a stop exactly if
      one had been asked for when its worker tested the flag after a stage. */
  lemma {:induction false} RunsRecordWhatHappened(actions: seq<Action>, s: State)
    requires Executes(INITIAL, actions, s)
    ensures s.stop <==> Asked(actions)
    ensures forall k: nat | k < |s.runs| :: RecordedAs(actions, k, s.runs[k])
    decreases |actions|
  {
    hide Enabled, Apply, Did, FoundStop, Asked, StartedWith, Inv;
    AfterExecution(actions, s);
    if actions == [] {
      assert !Asked([]) by { NeverAsked(); }
    } else {
      var front, a := actions[..|actions| - 1], actions[|actions| - 1];
      var before := After(front);
      RunsRecordWhatHappened(front, before);
      assert actions == front + [a];
      AskedAppend(front, a);
      FlagStep(before, a);
      forall k: nat | k < |s.runs|
        ensures RecordedAs(actions, k, s.runs[k])
      {
        RunRecorded(front, a, before, k);
      }
    }
  }

  lemma NeverAsked()
    ensures !Asked([])
  {
  }

  lemma FlagStep(s: State, a: Action)
    requires Enabled(s, a)
    ensures Apply(s, a).stop <==> AsksStop(a) || (s.stop && !ClearsStop(a))
  {
  }

  ghost predicate StageThrew(actions: seq<Action>, k: nat) {
    exists e: Exc :: Did(actions, k, EndStage(Threw(e)))
  }

  /** A finished run began all the stages that had been set last when it started,
      unless one of them threw, or a stop had been asked for by the time the flag was
      tested after one. Its cleanup is told which, and the failure that it leaves is
      what a stage threw, or else what its cleanup threw. */
  lemma FinishedRunByActions(actions: seq<Action>, s: State, k: nat)
    requires Executes(INITIAL, actions, s) && k < |s.runs| && s.runs[k].finished
    ensures var r := s.runs[k];
      var aborted := StageThrew(actions, k) || FoundStop(actions, k);
      && StartedAsGiven(actions, k, r)
      && Begun(r.log) <= r.steps && (!aborted ==> Begun(r.log) == r.steps)
      && Cleanups(r.log) == (if r.cleanup.Some? then [(r.cleanup.value, aborted)] else [])
      && forall e: Exc :: r.failure == Some(e) <==>
           Did(actions, k, EndStage(Threw(e))) || (!StageThrew(actions, k) && Did(actions, k, EndCleanup(Threw(e))))
  {
    hide Executes, Did, FoundStop, StartedAsGiven, Begun, Cleanups, BodyLog, CleanupLog, LockOk, CallersOk, WorkerOk,
      VisibleOk, DyingOk;
    assert Reachable(s);
    ReachableOk(s);
    FinishedRunMeans(s, k);
    StagesArePrefix(s, k);
    RunsAreAsGiven(actions, s);
    RunsRecordWhatHappened(actions, s);
    assert RecordedAs(actions, k, s.runs[k]);
    assert StageThrew(actions, k) <==> s.runs[k].stageFailure.Some?;
  }
}
