/** What the event-driven state machine guarantees in every reachable state. */
module EventDrivenTheorems {
  import opened Options
  import opened EventDriven

  /** The machine that performs a list of operations one after the other. */
  function Replay(c: Core, log: seq<Op>): Core
    decreases |log|
  {
    if log == [] then c else Perform(Replay(c, log[..|log| - 1]), log[|log| - 1])
  }

  /** The posted events among the operations, in order. */
  function PostedEvents(log: seq<Op>): seq<Event>
    decreases |log|
  {
    if log == [] then []
    else
      var rest, op := PostedEvents(log[..|log| - 1]), log[|log| - 1];
      if op.Processed? && op.posted then rest + [op.event] else rest
  }

  function Held(s: Sys): seq<Event> {
    match s.loop
    case Some(Taken(event)) => [event]
    case _ => []
  }

  // ---- The invariant ----

  /** What the operations return when they are performed one after the other. */
  function Answers(c: Core, log: seq<Op>): seq<bool>
    decreases |log|
  {
    if log == [] then []
    else
      var front := log[..|log| - 1];
      Answers(c, front) + [Answer(Replay(c, front), log[|log| - 1])]
  }

  ghost predicate HistoryOk(garbage: State, s: Sys) {
    && s.core == Replay(Initial(garbage).core, s.log)
    && s.answers == Answers(Initial(garbage).core, s.log)
    && PostedEvents(s.log) == s.done
    && s.done + Held(s) + s.queue == s.posted
  }

  predicate InStop(pc: CallerPc) { pc == StopNotify || pc == StopJoin }

  /** The background thread outlives its run only until the stop that ends it has
      joined it; when it has ended, all that was posted before that stop is done. */
  ghost predicate LoopOk(s: Sys) {
    && s.sealed <= |s.posted|
    && (s.loop == Some(Ended) ==> !s.running && s.sealed <= |s.done|)
    && (forall t {:trigger Pc(s, t)} :: InStop(Pc(s, t)) ==> !s.running)
    && (!s.running && s.loop.Some? ==> exists t {:trigger Pc(s, t)} :: InStop(Pc(s, t)))
  }

  /** A background thread sleeps with a stop or with work only while the thread
      that will notify it has not done so yet. */
  ghost predicate WakeOk(s: Sys) {
    s.loop == Some(Sleeping) ==>
      && (!s.running ==> exists t {:trigger Pc(s, t)} :: Pc(s, t) == StopNotify)
      && (s.queue != [] ==> exists t {:trigger Pc(s, t)} :: Pc(s, t) == Posted || Pc(s, t) == StopNotify)
  }

  ghost predicate OneStopper(s: Sys) {
    forall t, u {:trigger Pc(s, t), Pc(s, u)} :: InStop(Pc(s, t)) && InStop(Pc(s, u)) ==> t == u
  }

  ghost predicate Inv(garbage: State, s: Sys) {
    HistoryOk(garbage, s) && LoopOk(s) && WakeOk(s) && OneStopper(s)
  }

  lemma InitialOk(garbage: State)
    ensures Inv(garbage, Initial(garbage))
  {
  }

  /** Only the thread that acts moves. */
  lemma OthersStay(s: Sys, a: Action)
    requires Enabled(s, a)
    ensures var s' := Apply(s, a);
      forall u {:trigger Pc(s', u)} ::
        Pc(s', u) == Pc(s, u)
        || (a.Post? && u == a.t && Pc(s', u) == Posted)
        || (a.NotifyOne? && u == a.t && Pc(s', u) == Outside)
        || (a.StopCheck? && s.running && u == a.t && Pc(s', u) == StopNotify)
        || (a.StopWake? && u == a.t && Pc(s', u) == StopJoin)
        || (a.Join? && u == a.t && Pc(s', u) == Outside)
  {
  }

  lemma NobodyStopping(s: Sys)
    requires !Stopping(s)
    ensures forall t {:trigger Pc(s, t)} :: !InStop(Pc(s, t))
  {
    forall t
      ensures !InStop(Pc(s, t))
    {
      if t in s.callers {
        assert !(s.callers[t] == StopNotify || s.callers[t] == StopJoin);
      }
    }
  }

  lemma ReplayAppend(c: Core, log: seq<Op>, op: Op)
    ensures Replay(c, log + [op]) == Perform(Replay(c, log), op)
    ensures Answers(c, log + [op]) == Answers(c, log) + [Answer(Replay(c, log), op)]
    ensures PostedEvents(log + [op]) == PostedEvents(log) + if op.Processed? && op.posted then [op.event] else []
  {
    hide Perform, Answer;
    assert (log + [op])[..|log|] == log;
  }

  lemma StepKeepsReplay(garbage: State, s: Sys, a: Action)
    requires HistoryOk(garbage, s) && Enabled(s, a)
    ensures var s' := Apply(s, a);
      && s'.core == Replay(Initial(garbage).core, s'.log) && s'.answers == Answers(Initial(garbage).core, s'.log)
      && PostedEvents(s'.log) == s'.done
  {
    hide Perform, Held, Pc, Stopping, Woken, Replay, PostedEvents, Answers, Answer;
    if a.Locked? || a.LoopProcess? {
      var op := if a.Locked? then a.op else Processed(s.loop.value.event, a.passes, true);
      ReplayAppend(Initial(garbage).core, s.log, op);
    }
  }

  lemma TakingKeepsOrder(s: Sys)
    requires s.loop == Some(Ready) && s.done + Held(s) + s.queue == s.posted
    ensures Check(s).done + Held(Check(s)) + Check(s).queue == Check(s).posted
  {
    if s.queue != [] {
      assert s.done + [s.queue[0]] + s.queue[1..] == s.done + [] + s.queue;
    }
  }

  lemma StepKeepsQueue(garbage: State, s: Sys, a: Action)
    requires Inv(garbage, s) && Enabled(s, a)
    ensures var s' := Apply(s, a); s'.done + Held(s') + s'.queue == s'.posted
  {
    hide Perform, Replay, PostedEvents, WakeOk, OneStopper, Stopping;
    if a.LoopProcess? {
      assert s.done + [s.loop.value.event] + [] + s.queue == s.posted;
    } else if a.LoopCheck? {
      TakingKeepsOrder(s);
    } else if a.Post? {
      assert s.done + Held(s) + (s.queue + [a.event]) == s.done + Held(s) + s.queue + [a.event];
    } else if a.StartAsync? {
      NobodyStopping(s);
    }
  }

  lemma StepKeepsHistory(garbage: State, s: Sys, a: Action)
    requires Inv(garbage, s) && Enabled(s, a)
    ensures HistoryOk(garbage, Apply(s, a))
  {
    hide Replay, PostedEvents, Answers, Held, Apply, Enabled, LoopOk, WakeOk, OneStopper;
    StepKeepsReplay(garbage, s, a);
    StepKeepsQueue(garbage, s, a);
  }

  lemma StepKeepsLoop(garbage: State, s: Sys, a: Action)
    requires Inv(garbage, s) && Enabled(s, a)
    ensures LoopOk(Apply(s, a))
  {
    hide Replay, PostedEvents, Perform, WakeOk, Stopping;
    var s' := Apply(s, a);
    OthersStay(s, a);
    StillStopping(garbage, s, a);
    if a.StartAsync? {
      NobodyStopping(s);
      assert forall t {:trigger Pc(s', t)} :: Pc(s', t) == Pc(s, t);
    }
  }

  lemma StillStopping(garbage: State, s: Sys, a: Action)
    requires Inv(garbage, s) && Enabled(s, a)
    ensures var s' := Apply(s, a);
      !s'.running && s'.loop.Some? ==> exists t {:trigger Pc(s', t)} :: InStop(Pc(s', t))
  {
    hide HistoryOk, Perform, WakeOk, OneStopper;
    var s' := Apply(s, a);
    if !s'.running && s'.loop.Some? {
      if a.StopCheck? && s.running {
        assert InStop(Pc(s', a.t));
      } else {
        var t :| InStop(Pc(s, t));
        assert InStop(Pc(s', t));
      }
    }
  }

  lemma StepKeepsWake(garbage: State, s: Sys, a: Action)
    requires Inv(garbage, s) && Enabled(s, a)
    ensures WakeOk(Apply(s, a))
  {
    hide HistoryOk, Perform, OneStopper;
    var s' := Apply(s, a);
    if s'.loop == Some(Sleeping) && !s'.running {
      if a.StopCheck? && s.running {
        assert Pc(s', a.t) == StopNotify;
      } else {
        var t :| Pc(s, t) == StopNotify;
        assert Pc(s', t) == Pc(s, t);
      }
    }
    if s'.loop == Some(Sleeping) && s'.queue != [] {
      if a.Post? || (a.StopCheck? && s.running) {
        assert Pc(s', a.t) == Posted || Pc(s', a.t) == StopNotify;
      } else {
        var t :| Pc(s, t) == Posted || Pc(s, t) == StopNotify;
        assert Pc(s', t) == Pc(s, t);
      }
    }
  }

  lemma StepKeepsOneStopper(garbage: State, s: Sys, a: Action)
    requires Inv(garbage, s) && Enabled(s, a)
    ensures OneStopper(Apply(s, a))
  {
    hide HistoryOk, Perform, WakeOk, Apply;
    OthersStay(s, a);
    var s' := Apply(s, a);
    forall t, u | InStop(Pc(s', t)) && InStop(Pc(s', u))
      ensures t == u
    {
      assert InStop(Pc(s, t)) || (a.StopCheck? && s.running && t == a.t);
      assert InStop(Pc(s, u)) || (a.StopCheck? && s.running && u == a.t);
    }
  }

  lemma StepKeepsInv(garbage: State, s: Sys, a: Action)
    requires Inv(garbage, s) && Enabled(s, a)
    ensures Inv(garbage, Apply(s, a))
  {
    hide HistoryOk, LoopOk, WakeOk, OneStopper, Apply, Enabled;
    StepKeepsHistory(garbage, s, a);
    StepKeepsLoop(garbage, s, a);
    StepKeepsWake(garbage, s, a);
    StepKeepsOneStopper(garbage, s, a);
  }

  lemma {:induction false} ExecutionKeepsInv(garbage: State, s: Sys, actions: seq<Action>, s': Sys)
    requires Inv(garbage, s) && Executes(s, actions, s')
    ensures Inv(garbage, s')
    decreases |actions|
  {
    hide Inv, Enabled, Apply;
    if actions != [] {
      StepKeepsInv(garbage, s, actions[0]);
      ExecutionKeepsInv(garbage, Apply(s, actions[0]), actions[1..], s');
    }
  }

  lemma ReachableOk(garbage: State, s: Sys)
    requires Reachable(garbage, s)
    ensures Inv(garbage, s)
  {
    var actions :| Executes(Initial(garbage), actions, s);
    InitialOk(garbage);
    ExecutionKeepsInv(garbage, Initial(garbage), actions, s);
  }

  // ---- The promises ----

  /** The machine linearises: however threads interleave, it is where performing
      all operations one by one, in the order in which they took the lock, leads,
      and each operation returned what it returns there; and the posted events
      among them, the one in the background thread's hands and the queue make up
      exactly what was posted, in order. */
  lemma Linearises(garbage: State, s: Sys)
    requires Reachable(garbage, s)
    ensures s.core == Replay(Initial(garbage).core, s.log)
    ensures s.answers == Answers(Initial(garbage).core, s.log)
    ensures PostedEvents(s.log) + Held(s) + s.queue == s.posted
  {
    ReachableOk(garbage, s);
  }

  /** The history is never rewritten. */
  lemma {:induction false} HistoryOnlyGrows(s: Sys, actions: seq<Action>, s': Sys)
    requires Executes(s, actions, s')
    ensures s.log <= s'.log && s.posted <= s'.posted && s.done <= s'.done
    decreases |actions|
  {
    if actions != [] {
      HistoryOnlyGrows(Apply(s, actions[0]), actions[1..], s');
    }
  }

  /** The events that an execution posts, and the operations it calls, in order. */
  function Posts(actions: seq<Action>): seq<Event> {
    if actions == [] then []
    else (if actions[0].Post? then [actions[0].event] else []) + Posts(actions[1..])
  }

  function Calls(actions: seq<Action>): seq<Op> {
    if actions == [] then []
    else (if actions[0].Locked? then [actions[0].op] else []) + Calls(actions[1..])
  }

  /** The operations of a log that were called, not posted. */
  function Called(log: seq<Op>): seq<Op>
    decreases |log|
  {
    if log == [] then []
    else
      var rest, op := Called(log[..|log| - 1]), log[|log| - 1];
      if op.Processed? && op.posted then rest else rest + [op]
  }

  lemma CalledAppend(log: seq<Op>, op: Op)
    ensures Called(log + [op]) == Called(log) + if op.Processed? && op.posted then [] else [op]
  {
    assert (log + [op])[..|log|] == log;
  }

  lemma StepIsLogged(s: Sys, a: Action)
    requires Enabled(s, a)
    ensures Apply(s, a).posted == s.posted + (if a.Post? then [a.event] else [])
    ensures Called(Apply(s, a).log) == Called(s.log) + (if a.Locked? then [a.op] else [])
  {
    hide Perform, Called;
    match a
    case Locked(_, op) => CalledAppend(s.log, op);
    case LoopProcess(passes) => CalledAppend(s.log, Processed(s.loop.value.event, passes, true));
    case _ =>
  }

  /** What was posted is what the execution posts, in order, and of the operations
      performed those that were not posted are what it calls, in order. */
  lemma {:induction false} HistoryIsWhatWasCalled(s: Sys, actions: seq<Action>, s': Sys)
    requires Executes(s, actions, s')
    ensures s'.posted == s.posted + Posts(actions)
    ensures Called(s'.log) == Called(s.log) + Calls(actions)
    decreases |actions|
  {
    hide Enabled, Apply, Called;
    if actions != [] {
      StepIsLogged(s, actions[0]);
      var next, posts := Apply(s, actions[0]), Posts(actions[1..]);
      HistoryIsWhatWasCalled(next, actions[1..], s');
      assert next.posted + posts == s.posted + ((if actions[0].Post? then [actions[0].event] else []) + posts);
    }
  }

  /** Events posted once the background thread has ended stay queued, in order,
      until another one is started. */
  lemma {:induction false} LatePostsStayQueued(garbage: State, s: Sys, actions: seq<Action>, s': Sys)
    requires Inv(garbage, s) && (s.loop.None? || s.loop == Some(Ended)) && Executes(s, actions, s')
    requires forall k | 0 <= k < |actions| :: !actions[k].StartAsync?
    ensures s'.done == s.done && s.queue <= s'.queue && s'.posted == s'.done + s'.queue
    decreases |actions|
  {
    hide Inv, Enabled, Apply;
    if actions != [] {
      assert !actions[0].StartAsync?;
      StepKeepsInv(garbage, s, actions[0]);
      WithoutThread(s, actions[0]);
      assert forall k | 0 <= k < |actions| - 1 :: actions[1..][k] == actions[k + 1];
      LatePostsStayQueued(garbage, Apply(s, actions[0]), actions[1..], s');
    } else {
      NothingHeld(garbage, s);
    }
  }

  lemma WithoutThread(s: Sys, a: Action)
    requires (s.loop.None? || s.loop == Some(Ended)) && Enabled(s, a) && !a.StartAsync?
    ensures var s' := Apply(s, a);
      (s'.loop.None? || s'.loop == Some(Ended)) && s'.done == s.done && s.queue <= s'.queue
  {
    hide Perform;
  }

  lemma NothingHeld(garbage: State, s: Sys)
    requires Inv(garbage, s) && (s.loop.None? || s.loop == Some(Ended))
    ensures s.posted == s.done + s.queue
  {
    assert s.done + [] + s.queue == s.done + s.queue;
  }

  /** No wake-up is lost: while the background thread sleeps with work or with a
      stop, somebody is about to notify it. */
  lemma NoLostWakeup(garbage: State, s: Sys)
    requires Reachable(garbage, s) && s.loop == Some(Sleeping) && (s.queue != [] || !s.running)
    ensures exists t :: Enabled(s, NotifyOne(t)) || Enabled(s, StopWake(t))
    ensures forall t | Enabled(s, NotifyOne(t)) :: Apply(s, NotifyOne(t)).loop == Some(Ready)
    ensures forall t | Enabled(s, StopWake(t)) :: Apply(s, StopWake(t)).loop == Some(Ready)
  {
    ReachableOk(garbage, s);
    var t :| Pc(s, t) == Posted || Pc(s, t) == StopNotify;
    assert Enabled(s, NotifyOne(t)) || Enabled(s, StopWake(t));
  }

  // ---- Which transition an event takes ----

  /** The i-th operation is the last that configured the event in that state. */
  predicate LatestAdd(log: seq<Op>, i: nat, from: State, event: Event) {
    && i < |log| && log[i].Added? && log[i].from == from && log[i].event == event
    && forall j | i < j < |log| :: !(log[j].Added? && log[j].from == from && log[j].event == event)
  }

  lemma LatestAppend(log: seq<Op>, op: Op, i: nat, from: State, event: Event)
    requires i <= |log|
    ensures LatestAdd(log + [op], i, from, event) <==>
      if op.Added? && op.from == from && op.event == event then i == |log| else LatestAdd(log, i, from, event)
  {
    var all := log + [op];
    assert all[|log|] == op;
    assert forall j | 0 <= j < |log| :: all[j] == log[j];
  }

  /** Starting without transitions, there is one for a state and an event exactly
      when one was added, and it is the one added last. */
  lemma {:induction false} TransitionIsLatest(c: Core, log: seq<Op>, from: State, event: Event)
    requires c.transitions == map[]
    ensures (from, event) in Replay(c, log).transitions <==> exists i: nat :: LatestAdd(log, i, from, event)
    ensures forall i: nat | LatestAdd(log, i, from, event) ::
      (from, event) in Replay(c, log).transitions
      && Replay(c, log).transitions[(from, event)] == Transition(log[i].to, log[i].action, log[i].guarded)
    decreases |log|
  {
    if log != [] {
      var front, op := log[..|log| - 1], log[|log| - 1];
      TransitionIsLatest(c, front, from, event);
      assert log == front + [op];
      forall i: nat | i <= |front|
        ensures LatestAdd(log, i, from, event) <==>
          if op.Added? && op.from == from && op.event == event then i == |front| else LatestAdd(front, i, from, event)
      {
        LatestAppend(front, op, i, from, event);
      }
      hide LatestAdd;
      assert LatestAdd(log, |front|, from, event) <==> op.Added? && op.from == from && op.event == event by {
        NoLatestAtEnd(front, from, event);
      }
    }
  }

  lemma NoLatestAtEnd(log: seq<Op>, from: State, event: Event)
    ensures forall i: nat | LatestAdd(log, i, from, event) :: i < |log|
  {
  }

  function Only(there: bool, callback: Callback): seq<Callback> { if there then [callback] else [] }

  /** What taking a transition runs, of the callbacks there are: the exit of the
      present state, the action, the entry of the target, then the observers. */
  function Around(c: Core, to: State, event: Event, action: bool): seq<Callback> {
    Only(c.current in c.exitActions, Exited(c.current))
    + Only(action, Acted(c.current, event))
    + Only(to in c.entryActions, Entered(to))
    + [Told(Change(c.current, to, event))]
  }

  lemma TakeRuns(c: Core, event: Event, tr: Transition)
    ensures Take(c, event, tr) == c.(current := tr.target, ran := c.ran + Around(c, tr.target, event, tr.action))
  {
    var exits, acts := Only(c.current in c.exitActions, Exited(c.current)), Only(tr.action, Acted(c.current, event));
    var entries, told := Only(tr.target in c.entryActions, Entered(tr.target)), [Told(Change(c.current, tr.target, event))];
    assert c.ran + exits + acts + entries + told == c.ran + (exits + acts + entries + told);
  }

  /** An event takes the transition added last for it in the present state if that
      has no guard or a passing one: it leads to its target and runs the callbacks
      there are, in order. Otherwise the event is dropped without effect, and the
      answer is no. */
  lemma EventTakesLatestTransition(garbage: State, s: Sys, event: Event, passes: bool, posted: bool)
    requires Reachable(garbage, s)
    ensures var c, op := s.core, Processed(event, passes, posted);
      && (forall i: nat | LatestAdd(s.log, i, c.current, event) && (s.log[i].guarded ==> passes) ::
            Answer(c, op) && Perform(c, op) ==
              c.(current := s.log[i].to, ran := c.ran + Around(c, s.log[i].to, event, s.log[i].action)))
      && ((forall i: nat | LatestAdd(s.log, i, c.current, event) :: s.log[i].guarded && !passes) ==>
            !Answer(c, op) && Perform(c, op) == c)
  {
    ReachableOk(garbage, s);
    hide LatestAdd, Replay, Take, Around;
    var c := s.core;
    TransitionIsLatest(Initial(garbage).core, s.log, c.current, event);
    if (c.current, event) in c.transitions {
      TakeRuns(c, event, c.transitions[(c.current, event)]);
    }
  }

  /** A state has an entry or an exit exactly if one was registered, whatever else
      has been done. */
  lemma {:induction false} CallbacksAreAsRegistered(c: Core, log: seq<Op>, state: State)
    requires c.entryActions == {} && c.exitActions == {}
    ensures state in Replay(c, log).entryActions <==> OnEntry(state) in log
    ensures state in Replay(c, log).exitActions <==> OnExit(state) in log
    decreases |log|
  {
    if log != [] {
      var front, op := log[..|log| - 1], log[|log| - 1];
      CallbacksAreAsRegistered(c, front, state);
      assert log == front + [op];
      if op.Processed? && Handles(Replay(c, front), op.event, op.passes) {
        var before := Replay(c, front);
        TakeRuns(before, op.event, before.transitions[(before.current, op.event)]);
      }
    }
  }

  /** A reset goes to the given state and runs the entry that was registered for it;
      nothing is left, and no transition or callback is forgotten. */
  lemma ResetEnters(garbage: State, s: Sys, initial: State)
    requires Reachable(garbage, s)
    ensures Perform(s.core, ResetTo(initial)) ==
      s.core.(current := initial, ran := s.core.ran + Only(OnEntry(initial) in s.log, Entered(initial)))
  {
    hide Replay;
    ReachableOk(garbage, s);
    CallbacksAreAsRegistered(Initial(garbage).core, s.log, initial);
  }

  // ---- What observers are told ----

  /** The changes that the observers were told of, in order. */
  function Changes(ran: seq<Callback>): seq<Change>
    decreases |ran|
  {
    if ran == [] then []
    else
      var rest, last := Changes(ran[..|ran| - 1]), ran[|ran| - 1];
      if last.Told? then rest + [last.change] else rest
  }

  lemma ChangesAppend(ran: seq<Callback>, callback: Callback)
    ensures Changes(ran + [callback]) == Changes(ran) + if callback.Told? then [callback.change] else []
  {
    assert (ran + [callback])[..|ran|] == ran;
  }

  lemma TakeTells(c: Core, event: Event, tr: Transition)
    ensures Changes(Take(c, event, tr).ran) == Changes(c.ran) + [Change(c.current, tr.target, event)]
  {
    hide Changes;
    var left := Leave(c, c.current);
    var acted := Act(left, c.current, event, tr.action);
    var entered := Enter(acted.(current := tr.target), tr.target);
    ChangesAppend(c.ran, Exited(c.current));
    ChangesAppend(left.ran, Acted(c.current, event));
    ChangesAppend(acted.ran, Entered(tr.target));
    ChangesAppend(entered.ran, Told(Change(c.current, tr.target, event)));
  }

  predicate Chain(from: State, changes: seq<Change>, to: State)
    decreases |changes|
  {
    if changes == [] then from == to
    else
      changes[|changes| - 1].to == to
      && Chain(from, changes[..|changes| - 1], changes[|changes| - 1].from)
  }

  /** Every event that is handled tells the observers, whose chain then reaches the
      new state; no other operation but a reset moves the machine or tells them. */
  lemma OpExtendsChain(c: Core, op: Op, from: State)
    requires !op.ResetTo? && Chain(from, Changes(c.ran), c.current)
    ensures Chain(from, Changes(Perform(c, op).ran), Perform(c, op).current)
  {
    hide Changes, Take;
    if op.Processed? && Handles(c, op.event, op.passes) {
      var tr := c.transitions[(c.current, op.event)];
      var change := Change(c.current, tr.target, op.event);
      TakeTells(c, op.event, tr);
      TakeRuns(c, op.event, tr);
      assert (Changes(c.ran) + [change])[..|Changes(c.ran)|] == Changes(c.ran);
    }
  }

  /** The current state follows from the initial one by the changes the observers
      were told, each starting where the one before ended: without a reset none is
      missing. */
  lemma {:induction false} ObserversSeeEveryChange(c: Core, log: seq<Op>)
    requires c.ran == []
    requires forall k | 0 <= k < |log| :: !log[k].ResetTo?
    ensures Chain(c.current, Changes(Replay(c, log).ran), Replay(c, log).current)
    decreases |log|
  {
    hide Perform;
    if log != [] {
      var front := log[..|log| - 1];
      assert forall k | 0 <= k < |front| :: front[k] == log[k];
      ObserversSeeEveryChange(c, front);
      OpExtendsChain(Replay(c, front), log[|log| - 1], c.current);
    }
  }

  /** A reset tells them nothing: afterwards the chain still fits exactly when the
      reset went to the state the machine was in. */
  lemma ResetBreaksChainIff(c: Core, log: seq<Op>, initial: State)
    requires c.ran == []
    requires forall k | 0 <= k < |log| :: !log[k].ResetTo?
    ensures var after := Replay(c, log + [ResetTo(initial)]);
      Chain(c.current, Changes(after.ran), after.current) <==> initial == Replay(c, log).current
  {
    var before := Replay(c, log);
    assert (log + [ResetTo(initial)])[..|log|] == log;
    ObserversSeeEveryChange(c, log);
    ChangesAppend(before.ran, Entered(initial));
    ChainEnds(c.current, Changes(before.ran), before.current, initial);
  }

  lemma ChainEnds(from: State, changes: seq<Change>, to: State, other: State)
    requires Chain(from, changes, to)
    ensures Chain(from, changes, other) <==> other == to
  {
  }

  /** The smallest case: a reset from state 1 to state 2. */
  lemma ResetGoesUnseen()
    ensures var after := Replay(Initial(1).core, [ResetTo(2)]);
      after.current == 2 && Changes(after.ran) == [] && !Chain(1, Changes(after.ran), after.current)
  {
    ResetBreaksChainIff(Initial(1).core, [], 2);
    assert [] + [ResetTo(2)] == [ResetTo(2)];
  }
}
