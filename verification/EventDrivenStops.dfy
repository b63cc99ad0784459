/** When a stop of the background thread returns, and what it leaves undone. */
module EventDrivenStops {
  import opened Options
  import opened EventDriven
  import opened EventDrivenTheorems

  /** From a call of stop in s, these actions lead to a state where it returns: at
      once when the machine is not running; otherwise once it can join. */
  ghost predicate Returns(s: Sys, t: Tid, actions: seq<Action>, s': Sys)
    requires Enabled(s, StopCheck(t))
  {
    if !s.running then actions == [] && s' == s
    else Executes(Apply(s, StopCheck(t)), actions, s') && Enabled(s', Join(t)) && Join(t) !in actions
  }

  // ---- Until the join ----

  /** Only the thread that cleared the flag can join. */
  lemma OwnJoin(s: Sys, t: Tid, a: Action)
    requires OneStopper(s) && InStop(Pc(s, t)) && Enabled(s, a) && a.Join?
    ensures a == Join(t)
  {
  }

  lemma StopStays(garbage: State, s: Sys, t: Tid, a: Action)
    requires Inv(garbage, s) && InStop(Pc(s, t)) && Enabled(s, a) && a != Join(t)
    ensures var s' := Apply(s, a);
      && InStop(Pc(s', t)) && s'.sealed == s.sealed && (s'.loop.Some? <==> s.loop.Some?)
      && (s.loop.None? ==> s'.done == s.done)
  {
    hide HistoryOk, WakeOk, Perform;
    if a.StartAsync? {
      NobodyStopping(s);
    } else if a.Join? {
      OwnJoin(s, t, a);
    }
  }

  /** While a stop is under way, the background thread it found is there, and if it
      found none, no posted event is processed. */
  lemma {:induction false} UntilJoin(garbage: State, s: Sys, t: Tid, actions: seq<Action>, s': Sys)
    requires Inv(garbage, s) && InStop(Pc(s, t)) && Executes(s, actions, s') && Join(t) !in actions
    ensures Inv(garbage, s') && InStop(Pc(s', t)) && s'.sealed == s.sealed && (s'.loop.Some? <==> s.loop.Some?)
    ensures s.loop.None? ==> s'.done == s.done
    decreases |actions|
  {
    hide Inv, Enabled, Apply;
    if actions != [] {
      assert actions[0] in actions && actions[1..] <= actions[1..];
      StepKeepsInv(garbage, s, actions[0]);
      StopStays(garbage, s, t, actions[0]);
      UntilJoin(garbage, Apply(s, actions[0]), t, actions[1..], s');
    }
  }

  // ---- When a stop drains ----

  lemma Unprocessed(garbage: State, s: Sys)
    requires HistoryOk(garbage, s)
    ensures s.posted <= s.done <==> Held(s) + s.queue == []
    ensures PostedEvents(s.log) == s.done
  {
    assert s.done + (Held(s) + s.queue) == s.posted;
  }

  lemma EndedIsDrained(garbage: State, s: Sys)
    requires Inv(garbage, s) && s.loop == Some(Ended)
    ensures s.sealed <= |s.posted| && s.posted[..s.sealed] <= s.done
  {
    assert s.done + Held(s) + s.queue == s.posted;
    assert s.posted[..s.sealed] == s.done[..s.sealed];
  }

  /** When a stop that cleared the running flag can join the background thread,
      every event posted before it cleared the flag has been processed. */
  lemma StopDrains(garbage: State, s: Sys, t: Tid)
    requires Reachable(garbage, s) && Enabled(s, Join(t)) && s.loop.Some?
    ensures s.sealed <= |s.posted| && s.posted[..s.sealed] <= PostedEvents(s.log)
  {
    ReachableOk(garbage, s);
    EndedIsDrained(garbage, s);
  }

  /** Whatever the other threads do meanwhile: when a stop returns, every event
      posted before its call has been processed if and only if the call found the
      machine running with a background thread, or nothing was left to process. */
  lemma StopDrainsIff(garbage: State, s: Sys, t: Tid, actions: seq<Action>, s': Sys)
    requires Reachable(garbage, s) && Enabled(s, StopCheck(t)) && Returns(s, t, actions, s')
    ensures s.posted <= PostedEvents(s'.log) <==> (s.running && s.loop.Some?) || Held(s) + s.queue == []
  {
    hide WakeOk, OneStopper, Replay, PostedEvents;
    ReachableOk(garbage, s);
    Unprocessed(garbage, s);
    if s.running {
      var s1 := Apply(s, StopCheck(t));
      StepKeepsInv(garbage, s, StopCheck(t));
      UntilJoin(garbage, s1, t, actions, s');
      HistoryOnlyGrows(s1, actions, s');
      Unprocessed(garbage, s');
      if s.loop.Some? {
        EndedIsDrained(garbage, s');
        assert s.posted == s'.posted[..s'.sealed];
      }
    }
  }

  // ---- Two stops that drain nothing ----

  lemma {:induction false} ExecutesAppend(s: Sys, actions: seq<Action>, s': Sys, a: Action)
    requires Executes(s, actions, s') && Enabled(s', a)
    ensures Executes(s, actions + [a], Apply(s', a))
    decreases |actions|
  {
    if actions == [] {
      assert [a][1..] == [];
      assert Executes(Apply(s, a), [], Apply(s, a));
    } else {
      ExecutesAppend(Apply(s, actions[0]), actions[1..], s', a);
      assert (actions + [a])[1..] == actions[1..] + [a];
    }
  }

  lemma ReachableStep(garbage: State, s: Sys, a: Action)
    requires Reachable(garbage, s) && Enabled(s, a)
    ensures Reachable(garbage, Apply(s, a))
  {
    var actions :| Executes(Initial(garbage), actions, s);
    ExecutesAppend(Initial(garbage), actions, s, a);
  }

  /** Thread 0 has stopped a running machine and waits to join; event 7 is still
      queued. A stop by thread 2 returns now. */
  lemma StopDuringStop() returns (s: Sys)
    ensures Reachable(0, s) && Enabled(s, StopCheck(2)) && Returns(s, 2, [], s)
    ensures Pc(s, 0) == StopJoin && s.loop == Some(Ready) && s.queue == [7]
    ensures !(s.posted <= PostedEvents(s.log))
  {
    s := Initial(0);
    assert Executes(s, [], s);
    ReachableStep(0, s, StartAsync(0, true));
    s := Apply(s, StartAsync(0, true));
    ReachableStep(0, s, Post(1, 7));
    s := Apply(s, Post(1, 7));
    ReachableStep(0, s, StopCheck(0));
    s := Apply(s, StopCheck(0));
    ReachableStep(0, s, StopWake(0));
    s := Apply(s, StopWake(0));
    StopDrainsIff(0, s, 2, [], s);
  }

  lemma MachineWithoutThread() returns (s: Sys)
    ensures Reachable(0, s) && s == Initial(0).(running := true, queue := [7], posted := [7], callers := map[1 := Posted])
  {
    s := Initial(0);
    assert Executes(s, [], s);
    ReachableStep(0, s, StartAsync(0, false));
    s := Apply(s, StartAsync(0, false));
    ReachableStep(0, s, Post(1, 7));
    s := Apply(s, Post(1, 7));
  }

  /** The thread could not be created: the machine counts as running, and a stop
      returns with event 7 still queued. */
  lemma StopWithoutThread() returns (s: Sys, s': Sys)
    ensures Reachable(0, s) && Enabled(s, StopCheck(0)) && s.running && s.loop.None? && s.queue == [7]
    ensures Returns(s, 0, [StopWake(0)], s') && s'.queue == [7]
    ensures !(s.posted <= PostedEvents(s'.log))
  {
    hide Reachable, Perform, Replay, Stopping;
    s := MachineWithoutThread();
    var s1 := Apply(s, StopCheck(0));
    s' := Apply(s1, StopWake(0));
    assert Executes(s1, [], s1);
    ExecutesAppend(s1, [], s1, StopWake(0));
    assert [] + [StopWake(0)] == [StopWake(0)];
  }

  // ---- That a stop returns ----

  /** The steps that bring the stop of t closer to its return. */
  predicate Drains(a: Action, t: Tid) { a == StopWake(t) || a.LoopCheck? || a.LoopProcess? || a.SpuriousWake? }

  function DrainSteps(actions: seq<Action>, t: Tid): nat {
    if actions == [] then 0 else (if Drains(actions[0], t) then 1 else 0) + DrainSteps(actions[1..], t)
  }

  function Posts(actions: seq<Action>): nat {
    if actions == [] then 0 else (if actions[0].Post? then 1 else 0) + Posts(actions[1..])
  }

  /** At most so many of them are left before it can join. */
  function StepsLeft(s: Sys, t: Tid): nat {
    (if Pc(s, t) == StopNotify then 1 else 0)
    + match s.loop
      case None => 0
      case Some(Ended) => 0
      case Some(Ready) => 1 + 2 * |s.queue|
      case Some(_) => 2 + 2 * |s.queue|
  }

  lemma StepGetsCloser(garbage: State, s: Sys, t: Tid, a: Action)
    requires Inv(garbage, s) && InStop(Pc(s, t)) && Enabled(s, a) && a != Join(t)
    ensures StepsLeft(Apply(s, a), t) <= StepsLeft(s, t) + (if a.Post? then 2 else 0) - (if Drains(a, t) then 1 else 0)
  {
    hide HistoryOk, WakeOk, Perform;
    if a.StartAsync? {
      NobodyStopping(s);
    } else if a.Join? {
      OwnJoin(s, t, a);
    }
  }

  /** Bounded work: until a stop can join, the background thread and the stopping
      thread take together at most the steps that were left at its start, and two
      more for each event posted meanwhile. */
  lemma {:induction false} StopWorkIsBounded(garbage: State, s: Sys, t: Tid, actions: seq<Action>, s': Sys)
    requires Inv(garbage, s) && InStop(Pc(s, t)) && Executes(s, actions, s') && Join(t) !in actions
    ensures DrainSteps(actions, t) + StepsLeft(s', t) <= StepsLeft(s, t) + 2 * Posts(actions)
    decreases |actions|
  {
    hide Inv, Enabled, Apply, StepsLeft;
    if actions != [] {
      assert actions[0] in actions;
      StepKeepsInv(garbage, s, actions[0]);
      StopStays(garbage, s, t, actions[0]);
      StepGetsCloser(garbage, s, t, actions[0]);
      StopWorkIsBounded(garbage, Apply(s, actions[0]), t, actions[1..], s');
    }
  }

  /** No deadlock: as long as a stop cannot join, one of those steps can be taken,
      and not only by a spurious wake-up. */
  lemma StopAlwaysMoves(garbage: State, s: Sys, t: Tid)
    requires Reachable(garbage, s) && InStop(Pc(s, t))
    ensures Enabled(s, Join(t)) || exists a :: Drains(a, t) && !a.SpuriousWake? && Enabled(s, a)
  {
    ReachableOk(garbage, s);
    if !Enabled(s, Join(t)) {
      var a := if Pc(s, t) == StopNotify then StopWake(t)
               else if s.loop == Some(Ready) then LoopCheck
               else LoopProcess(true);
      if s.loop == Some(Sleeping) && Pc(s, t) == StopJoin {
        var u :| Pc(s, u) == StopNotify;
        assert InStop(Pc(s, u));
      }
      assert Drains(a, t) && !a.SpuriousWake? && Enabled(s, a);
    }
  }
}
