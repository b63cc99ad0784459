/** That a shutdown of the thread pool gets to its end. */
module ThreadPoolShutdown {
  import opened Options
  import opened ThreadPool
  import opened ThreadPoolTheorems

  // ---- One shutdown at a time, and flagged workers stay awake ----

  ghost predicate OneShutter(s: State) {
    forall t, u {:trigger Pc(s, t), Pc(s, u)} :: InShutdown(Pc(s, t)) && InShutdown(Pc(s, u)) ==> t == u
  }

  /** A worker whose flag is set sleeps only until the same shutdown notifies it. */
  ghost predicate FlaggedWake(s: State, i: nat)
    requires i < |s.workers|
  {
    s.workers[i].shutdown && s.workers[i].pc == Blocked ==> exists t {:trigger Pc(s, t)} :: Pc(s, t) == ShutNotify(i)
  }

  ghost predicate ShutOk(s: State) {
    OneShutter(s) && forall i: nat | i < |s.workers| :: FlaggedWake(s, i)
  }

  lemma StepKeepsOneShutter(s: State, a: Action)
    requires OneShutter(s) && Enabled(s, a)
    ensures OneShutter(Apply(s, a))
  {
    var s' := Apply(s, a);
    if a.ByCaller? {
      forall t, u | InShutdown(Pc(s', t)) && InShutdown(Pc(s', u))
        ensures t == u
      {
        assert t != a.t ==> Pc(s', t) == Pc(s, t);
        assert u != a.t ==> Pc(s', u) == Pc(s, u);
        assert a.c.CallShutdown? ==> !InShutdown(Pc(s, t)) && !InShutdown(Pc(s, u));
        assert !a.c.CallShutdown? && InShutdown(Pc(s', a.t)) ==> InShutdown(Pc(s, a.t));
      }
    } else {
      assert forall t :: Pc(s', t) == Pc(s, t);
    }
  }

  lemma StepKeepsFlaggedWake(s: State, a: Action, i: nat)
    requires Enabled(s, a) && i < |s.workers| && FlaggedWake(s, i)
    ensures i < |Apply(s, a).workers| && FlaggedWake(Apply(s, a), i)
  {
    var s' := Apply(s, a);
    if s'.workers[i].shutdown && s'.workers[i].pc == Blocked {
      if a.ByCaller? && a.c.SetFlag? && Pc(s, a.t) == ShutFlag(i) {
        assert Pc(s', a.t) == ShutNotify(i);
      } else {
        var t :| Pc(s, t) == ShutNotify(i);
        assert Pc(s', t) == Pc(s, t);
      }
    }
  }

  lemma StepKeepsShutOk(s: State, a: Action)
    requires ShutOk(s) && Enabled(s, a)
    ensures ShutOk(Apply(s, a))
  {
    hide Enabled, Apply, FlaggedWake, OneShutter;
    StepKeepsOneShutter(s, a);
    StepGrows(s, a);
    forall i: nat | i < |Apply(s, a).workers|
      ensures FlaggedWake(Apply(s, a), i)
    {
      StepKeepsFlaggedWake(s, a, i);
    }
  }

  lemma {:induction false} ExecutionKeepsShutOk(s: State, actions: seq<Action>, s': State)
    requires ShutOk(s) && Executes(s, actions, s')
    ensures ShutOk(s')
    decreases |actions|
  {
    hide Enabled, Apply, ShutOk;
    if actions != [] {
      StepKeepsShutOk(s, actions[0]);
      ExecutionKeepsShutOk(Apply(s, actions[0]), actions[1..], s');
    }
  }

  lemma ReachableShutOk(n: nat, s: State)
    requires Reachable(n, s)
    ensures ShutOk(s)
  {
    var actions :| Executes(Initial(n), actions, s);
    ExecutionKeepsShutOk(Initial(n), actions, s);
  }

  // ---- No deadlock ----

  /** The steps that bring the shutdown of t closer to its end: its own, and those
      of the workers whose flag is set. */
  predicate Advances(s: State, a: Action, t: Tid) {
    match a
    case ByCaller(u, _) => u == t
    case ByWorker(i, _) => i < |s.workers| && s.workers[i].shutdown
  }

  predicate IsSpurious(a: Action) { a.ByWorker? && a.w.SpuriousWake? }

  /** While a shutdown is under way one of those steps can be taken, and not only
      by a spurious wake-up. */
  lemma ShutdownAlwaysMoves(n: nat, s: State, t: Tid)
    requires Reachable(n, s) && InShutdown(Pc(s, t))
    ensures exists a :: Enabled(s, a) && Advances(s, a, t) && !IsSpurious(a)
  {
    hide WakeOk, DealtOk, WorkersOk;
    ReachableOk(n, s);
    ReachableShutOk(n, s);
    assert CallerOk(s, Pc(s, t));
    var a := NextStep(s, t);
    if a.ByWorker? {
      assert FlaggedWake(s, a.i);
    }
    assert Enabled(s, a) && Advances(s, a, t) && !IsSpurious(a);
  }

  function NextStep(s: State, t: Tid): Action {
    var pc, n := Pc(s, t), |s.workers|;
    match pc
    case ShutFlag(k) => ByCaller(t, if k < n then SetFlag else EndFlags)
    case ShutNotify(_) => ByCaller(t, NotifyAll)
    case ShutJoin(k) =>
      if k >= n then ByCaller(t, ShutReturn)
      else if s.workers[k].joined || s.workers[k].pc == Exited then ByCaller(t, Join)
      else ByWorker(k, NextAct(s.workers[k].pc))
    case _ => ByCaller(t, CallShutdown)
  }

  // ---- Bounded work ----

  /** At most so many steps of a flagged worker are left until it ends. */
  function Left(w: Worker): nat {
    match w.pc
    case Exited => 0
    case Leaving => 1
    case Waiting => 3 * |w.queue| + if w.shutdown then 2 else 3
    case Took(_) => 3 * |w.queue| + 4
    case _ => 3 * |w.queue| + 3
  }

  function LeftOfAll(workers: seq<Worker>): nat
    decreases |workers|
  {
    if workers == [] then 0 else LeftOfAll(workers[..|workers| - 1]) + Left(workers[|workers| - 1])
  }

  function LeftOfCaller(pc: CallerPc, n: nat): int {
    match pc
    case ShutFlag(k) => 2 * (n - k) + n + 2
    case ShutNotify(k) => 2 * (n - k) + n + 1
    case ShutJoin(k) => n - k + 1
    case _ => 0
  }

  function StepsLeft(s: State, t: Tid): int { LeftOfCaller(Pc(s, t), |s.workers|) + LeftOfAll(s.workers) }

  lemma {:induction false} LeftAfterUpdate(workers: seq<Worker>, i: nat, w: Worker)
    requires i < |workers|
    ensures LeftOfAll(workers[i := w]) == LeftOfAll(workers) - Left(workers[i]) + Left(w)
    decreases |workers|
  {
    hide Left;
    var n := |workers| - 1;
    if i < n {
      LeftAfterUpdate(workers[..n], i, w);
      assert workers[i := w][..n] == workers[..n][i := w];
    } else {
      assert workers[i := w][..n] == workers[..n];
    }
  }

  lemma WorkerLeft(w: Worker, a: WorkerAct)
    requires WorkerEnabled(w, a)
    ensures Left(WorkerStep(w, a)) <= Left(w) - if w.shutdown then 1 else 0
  {
  }

  predicate IsPush(a: Action) { a.ByCaller? && (a.c.Submit? || a.c.PushTicket?) }

  lemma CallerLeft(s: State, t: Tid, c: CallerAct)
    requires CallerEnabled(s, t, c)
    ensures LeftOfAll(CallerStep(s, t, c).workers) <= LeftOfAll(s.workers) + if c.Submit? || c.PushTicket? then 3 else 0
  {
    hide LeftOfAll, NextCaller;
    if Touched(s, t, c).Some? {
      var (i, w) := Touched(s, t, c).value;
      LeftAfterUpdate(s.workers, i, w);
    }
  }

  lemma OwnStepLeft(s: State, t: Tid, c: CallerAct)
    requires CallerEnabled(s, t, c) && InShutdown(Pc(s, t)) && c != ShutReturn
    ensures InShutdown(NextCaller(s, t, c)) && !IsPush(ByCaller(t, c))
    ensures LeftOfCaller(NextCaller(s, t, c), |s.workers|) < LeftOfCaller(Pc(s, t), |s.workers|)
  {
  }

  lemma StepLeft(s: State, t: Tid, a: Action)
    requires InShutdown(Pc(s, t)) && Enabled(s, a) && a != ByCaller(t, ShutReturn)
    ensures InShutdown(Pc(Apply(s, a), t))
    ensures StepsLeft(Apply(s, a), t) <= StepsLeft(s, t) + (if IsPush(a) then 3 else 0) - (if Advances(s, a, t) then 1 else 0)
  {
    hide LeftOfAll, LeftOfCaller, Left, WorkerStep, Touched, NextCaller;
    match a
    case ByWorker(i, w) =>
      LeftAfterUpdate(s.workers, i, WorkerStep(s.workers[i], w));
      WorkerLeft(s.workers[i], w);
    case ByCaller(u, c) =>
      CallerLeft(s, u, c);
      if u == t {
        OwnStepLeft(s, t, c);
      }
  }

  function AdvanceSteps(s: State, actions: seq<Action>, t: Tid): nat
    decreases |actions|
  {
    if actions == [] || !Enabled(s, actions[0]) then 0
    else (if Advances(s, actions[0], t) then 1 else 0) + AdvanceSteps(Apply(s, actions[0]), actions[1..], t)
  }

  function PushCount(actions: seq<Action>): nat {
    if actions == [] then 0 else (if IsPush(actions[0]) then 1 else 0) + PushCount(actions[1..])
  }

  /** Bounded work: until a shutdown returns, its thread and the workers whose flag
      is set take together at most the steps that were left at its start, and three
      more for each task that is submitted meanwhile. */
  lemma {:induction false} ShutdownWorkIsBounded(s: State, t: Tid, actions: seq<Action>, s': State)
    requires InShutdown(Pc(s, t)) && Executes(s, actions, s') && ByCaller(t, ShutReturn) !in actions
    ensures InShutdown(Pc(s', t))
    ensures AdvanceSteps(s, actions, t) + StepsLeft(s', t) <= StepsLeft(s, t) + 3 * PushCount(actions)
    decreases |actions|
  {
    hide Enabled, Apply, StepsLeft, InShutdown, IsPush, Advances;
    if actions != [] {
      assert actions[0] in actions;
      StepLeft(s, t, actions[0]);
      ShutdownWorkIsBounded(Apply(s, actions[0]), t, actions[1..], s');
    }
  }

  /** What is left is never negative in a reachable state, so this bounds the steps. */
  lemma StepsLeftPositive(n: nat, s: State, t: Tid)
    requires Reachable(n, s) && InShutdown(Pc(s, t))
    ensures StepsLeft(s, t) > 0
  {
    hide WakeOk, DealtOk, WorkersOk, LeftOfAll;
    ReachableOk(n, s);
    assert CallerOk(s, Pc(s, t));
  }
}
