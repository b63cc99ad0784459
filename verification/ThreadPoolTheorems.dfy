/** What the thread pool guarantees in every reachable state. */
module ThreadPoolTheorems {
  import opened Options
  import opened ThreadPool

  // ---- The invariant ----

  function InFlight(w: Worker): seq<Task> {
    match w.pc
    case Took(task) => [task]
    case InTask(task) => [task]
    case _ => []
  }

  predicate Done(w: Worker) { w.pc == Leaving || w.pc == Exited }

  predicate WorkerOk(w: Worker) {
    && w.executed + InFlight(w) + w.queue == w.accepted
    && (w.shutdown <==> w.sealed.Some?)
    && (w.shutdown ==> w.sealed.value <= |w.accepted|)
    && (Done(w) ==> w.shutdown && w.sealed.value <= |w.executed|)
    && (w.joined ==> w.pc == Exited)
    && (w.running <==> w.pc != Starting && w.pc != Exited)
  }

  ghost predicate WorkersOk(s: State) {
    forall i | 0 <= i < |s.workers| :: WorkerOk(s.workers[i])
  }

  /** A worker sleeps with something to do only while its notifier is on the way. */
  ghost predicate Notified(s: State, i: nat)
    requires i < |s.workers|
  {
    s.workers[i].pc == Blocked && (s.workers[i].queue != [] || s.workers[i].shutdown) ==>
      exists t :: Pc(s, t) == Pushed(i) || Pc(s, t) == ShutNotify(i)
  }

  ghost predicate WakeOk(s: State) {
    forall i: nat | i < |s.workers| :: Notified(s, i)
  }

  ghost predicate CallerOk(s: State, pc: CallerPc) {
    match pc
    case Outside => true
    case HasTicket(id, _) => id < |s.workers|
    case Pushed(id) => id < |s.workers|
    case ShutFlag(k) => k <= |s.workers| && forall i: nat | i < k :: s.workers[i].shutdown
    case ShutNotify(k) => k < |s.workers| && forall i: nat | i <= k :: s.workers[i].shutdown
    case ShutJoin(k) =>
      && k <= |s.workers|
      && (forall i: nat | i < |s.workers| :: s.workers[i].shutdown)
      && (forall i: nat | i < k :: s.workers[i].pc == Exited)
  }

  ghost predicate CallersOk(s: State) {
    forall t :: CallerOk(s, Pc(s, t))
  }

  predicate Holds(pc: CallerPc, i: nat) { pc.HasTicket? && pc.id == i }

  function Holders(callers: map<Tid, CallerPc>, i: nat): set<Tid> {
    set t | t in callers && Holds(callers[t], i)
  }

  /** The threads that have drawn a ticket for worker i and not yet used it. */
  function Pending(s: State, i: nat): set<Tid> { Holders(s.callers, i) }

  ghost predicate DealtOk(s: State) {
    && s.next == s.tickets % WRAP
    && (|s.workers| > 0 ==> forall i: nat | i < |s.workers| ::
          s.workers[i].dealt + |Pending(s, i)| == Dealt(s.tickets, |s.workers|, i, WRAP))
  }

  ghost predicate Inv(s: State) {
    WorkersOk(s) && WakeOk(s) && CallersOk(s) && DealtOk(s)
  }

  // ---- Steps ----

  lemma WorkerStepOk(w: Worker, a: WorkerAct)
    requires WorkerOk(w) && WorkerEnabled(w, a)
    ensures WorkerOk(WorkerStep(w, a))
  {
    if a.Check? && w.queue != [] {
      assert w.executed + [w.queue[0]] + w.queue[1..] == w.executed + [] + w.queue;
    }
  }

  lemma PushOk(w: Worker, task: Task)
    requires WorkerOk(w)
    ensures WorkerOk(Push(w, task))
  {
    assert w.executed + InFlight(w) + (w.queue + [task]) == w.executed + InFlight(w) + w.queue + [task];
  }

  lemma TouchedOk(s: State, t: Tid, a: CallerAct)
    requires WorkersOk(s) && CallerEnabled(s, t, a) && Touched(s, t, a).Some?
    ensures WorkerOk(Touched(s, t, a).value.1)
  {
    match a
    case Submit(id, task) => PushOk(s.workers[id], task);
    case PushTicket => PushOk(s.workers[Pc(s, t).id], Pc(s, t).task);
    case _ =>
  }

  /** What no step ever takes back. */
  predicate Grows(w: Worker, w': Worker) {
    && w.accepted <= w'.accepted && w.executed <= w'.executed
    && (w.shutdown ==> w'.shutdown && w'.sealed == w.sealed)
    && (w.pc == Exited ==> w'.pc == Exited)
    && (Done(w) ==> Done(w') && w'.executed == w.executed)
    && (w.joined ==> w'.joined)
  }

  lemma StepGrows(s: State, a: Action)
    requires Enabled(s, a)
    ensures |Apply(s, a).workers| == |s.workers|
    ensures forall i: nat | i < |s.workers| :: Grows(s.workers[i], Apply(s, a).workers[i])
  {
    hide Grows, Touched, WorkerStep, NextCaller;
    forall w { GrowsItself(w); }
    match a
    case ByWorker(i, w) => WorkerGrows(s.workers[i], w);
    case ByCaller(t, c) => TouchedGrows(s, t, c);
  }

  lemma GrowsItself(w: Worker)
    ensures Grows(w, w)
  {
  }

  lemma WorkerGrows(w: Worker, a: WorkerAct)
    requires WorkerEnabled(w, a)
    ensures Grows(w, WorkerStep(w, a))
  {
  }

  lemma TouchedGrows(s: State, t: Tid, c: CallerAct)
    requires CallerEnabled(s, t, c)
    ensures match Touched(s, t, c)
      case Some((i, w)) => Grows(s.workers[i], w)
      case None => true
  {
  }

  lemma StepKeepsWorkers(s: State, a: Action)
    requires WorkersOk(s) && Enabled(s, a)
    ensures WorkersOk(Apply(s, a))
  {
    hide WorkerOk, Touched, NextCaller, WorkerStep;
    match a
    case ByWorker(i, w) => WorkerStepOk(s.workers[i], w);
    case ByCaller(t, c) =>
      if Touched(s, t, c).Some? {
        TouchedOk(s, t, c);
      }
  }

  lemma StepKeepsWake(s: State, a: Action)
    requires WakeOk(s) && Enabled(s, a)
    ensures WakeOk(Apply(s, a))
  {
    var s' := Apply(s, a);
    forall i: nat | i < |s'.workers|
      ensures Notified(s', i)
    {
      assert Notified(s, i);
      if a.ByCaller? {
        assert Pc(s', a.t) == NextCaller(s, a.t, a.c);
        assert forall t | t != a.t :: Pc(s', t) == Pc(s, t);
      } else {
        assert forall t :: Pc(s', t) == Pc(s, t);
      }
    }
  }

  lemma CallerOkGrows(s: State, s': State, pc: CallerPc)
    requires CallerOk(s, pc) && |s'.workers| == |s.workers|
    requires forall i: nat | i < |s.workers| :: Grows(s.workers[i], s'.workers[i])
    ensures CallerOk(s', pc)
  {
  }

  lemma StepKeepsCallers(s: State, a: Action)
    requires WorkersOk(s) && CallersOk(s) && Enabled(s, a)
    ensures CallersOk(Apply(s, a))
  {
    var s' := Apply(s, a);
    StepGrows(s, a);
    forall t
      ensures CallerOk(s', Pc(s', t))
    {
      assert CallerOk(s, Pc(s, t));
      CallerOkGrows(s, s', Pc(s, t));
      if a.ByCaller? && t == a.t {
        MoverOk(s, t, a.c);
      }
    }
  }

  lemma MoverOk(s: State, t: Tid, c: CallerAct)
    requires WorkersOk(s) && CallerOk(s, Pc(s, t)) && CallerEnabled(s, t, c)
    ensures CallerOk(CallerStep(s, t, c), NextCaller(s, t, c))
  {
  }

  lemma StepKeepsDealt(s: State, a: Action)
    requires DealtOk(s) && CallersOk(s) && Enabled(s, a)
    ensures DealtOk(Apply(s, a))
  {
    hide Dealt, Pending, CallersOk, Touched, WorkerStep;
    var s' := Apply(s, a);
    forall i: nat | i < |s'.workers|
      ensures s'.workers[i].dealt + |Pending(s', i)| == Dealt(s'.tickets, |s'.workers|, i, WRAP)
    {
      match a
      case ByWorker(j, w) => WorkerKeepsDealt(s, j, w, i);
      case ByCaller(t, c) =>
        PendingAfter(s, t, c, i);
        DealtAfter(s, t, c, i);
    }
    NextTicket(s, a);
  }

  lemma NextTicket(s: State, a: Action)
    requires s.next == s.tickets % WRAP && Enabled(s, a)
    ensures Apply(s, a).next == Apply(s, a).tickets % WRAP
  {
    hide Touched, NextCaller, WorkerStep;
    ModStep(s.tickets, WRAP);
  }

  lemma ModStep(k: nat, wrap: nat)
    requires wrap > 0
    ensures (k % wrap + 1) % wrap == (k + 1) % wrap
  {
    DivStep(k, wrap);
    DivStep(k % wrap, wrap);
    DivUnique(k % wrap, wrap, 0, k % wrap);
  }

  lemma WorkerKeepsDealt(s: State, j: nat, w: WorkerAct, i: nat)
    requires Enabled(s, ByWorker(j, w)) && i < |s.workers|
    ensures var s' := Apply(s, ByWorker(j, w));
      |s'.workers| == |s.workers| && s'.workers[i].dealt == s.workers[i].dealt
      && Pending(s', i) == Pending(s, i) && s'.tickets == s.tickets
  {
  }

  lemma DealtAfter(s: State, t: Tid, c: CallerAct, i: nat)
    requires CallerEnabled(s, t, c) && i < |s.workers| && s.next == s.tickets % WRAP
    ensures var s' := CallerStep(s, t, c);
      && |s'.workers| == |s.workers|
      && s'.workers[i].dealt == s.workers[i].dealt + (if c.PushTicket? && Pc(s, t).id == i then 1 else 0)
      && Dealt(s'.tickets, |s.workers|, i, WRAP)
           == Dealt(s.tickets, |s.workers|, i, WRAP) + (if c.TakeTicket? && s.next % |s.workers| == i then 1 else 0)
  {
  }

  lemma SizeWithout(a: set<Tid>, t: Tid)
    ensures |a| == |a - {t}| + if t in a then 1 else 0
  {
    if t in a {
      assert a == (a - {t}) + {t};
    } else {
      assert a == a - {t};
    }
  }

  lemma HoldersElsewhere(callers: map<Tid, CallerPc>, t: Tid, pc: CallerPc, i: nat)
    ensures Holders(callers[t := pc], i) - {t} == Holders(callers, i) - {t}
    ensures t in Holders(callers[t := pc], i) <==> Holds(pc, i)
  {
    hide Holds;
    forall u
      ensures u in Holders(callers[t := pc], i) - {t} <==> u in Holders(callers, i) - {t}
    {
      if u != t {
        assert u in callers[t := pc] <==> u in callers;
      }
    }
  }

  lemma HoldersAfter(callers: map<Tid, CallerPc>, t: Tid, pc: CallerPc, i: nat)
    ensures |Holders(callers[t := pc], i)| ==
      |Holders(callers, i)| + (if Holds(pc, i) then 1 else 0) - (if t in callers && Holds(callers[t], i) then 1 else 0)
  {
    assert t in Holders(callers, i) <==> t in callers && Holds(callers[t], i);
    hide Holds, Holders;
    HoldersElsewhere(callers, t, pc, i);
    SizeWithout(Holders(callers, i), t);
    SizeWithout(Holders(callers[t := pc], i), t);
  }

  lemma PendingAfter(s: State, t: Tid, c: CallerAct, i: nat)
    requires CallerEnabled(s, t, c) && i < |s.workers|
    ensures |Pending(CallerStep(s, t, c), i)| == |Pending(s, i)|
        + (if c.TakeTicket? && s.next % |s.workers| == i then 1 else 0)
        - (if c.PushTicket? && Pc(s, t).id == i then 1 else 0)
  {
    hide Touched, Holders;
    HoldersAfter(s.callers, t, NextCaller(s, t, c), i);
  }

  lemma InitialOk(n: nat)
    ensures Inv(Initial(n))
  {
    assert forall i :: Pending(Initial(n), i) == {};
  }

  lemma StepKeepsInv(s: State, a: Action)
    requires Inv(s) && Enabled(s, a)
    ensures Inv(Apply(s, a))
  {
    hide WorkersOk, WakeOk, CallersOk, DealtOk, Apply, Enabled;
    StepKeepsWorkers(s, a);
    StepKeepsWake(s, a);
    StepKeepsCallers(s, a);
    StepKeepsDealt(s, a);
  }

  lemma {:induction false} ExecutionKeepsInv(s: State, actions: seq<Action>, s': State)
    requires Inv(s) && Executes(s, actions, s')
    ensures Inv(s') && |s'.workers| == |s.workers|
    decreases |actions|
  {
    if actions != [] {
      StepKeepsInv(s, actions[0]);
      StepGrows(s, actions[0]);
      ExecutionKeepsInv(Apply(s, actions[0]), actions[1..], s');
    }
  }

  lemma ReachableOk(n: nat, s: State)
    requires Reachable(n, s)
    ensures Inv(s) && |s.workers| == n
  {
    var actions :| Executes(Initial(n), actions, s);
    InitialOk(n);
    ExecutionKeepsInv(Initial(n), actions, s);
  }

  lemma GrowsChain(a: Worker, b: Worker, c: Worker)
    requires Grows(a, b) && Grows(b, c)
    ensures Grows(a, c)
  {
  }

  lemma {:induction false} ExecutionGrows(s: State, actions: seq<Action>, s': State, i: nat)
    requires Executes(s, actions, s') && i < |s.workers|
    ensures i < |s'.workers| && Grows(s.workers[i], s'.workers[i])
    decreases |actions|
  {
    hide Grows, Apply, Enabled;
    if actions != [] {
      var t := Apply(s, actions[0]);
      StepGrows(s, actions[0]);
      ExecutionGrows(t, actions[1..], s', i);
      GrowsChain(s.workers[i], t.workers[i], s'.workers[i]);
    } else {
      GrowsItself(s.workers[i]);
    }
  }

  // ---- The promises ----

  /** Every worker runs what it accepted in the order of acceptance, each task
      exactly once: what it has run, what it is running and what is queued make up
      exactly what was submitted to it. */
  lemma ExactlyOnceInOrder(n: nat, s: State, i: nat)
    requires Reachable(n, s) && i < n
    ensures |s.workers| == n
    ensures var w := s.workers[i]; w.executed + InFlight(w) + w.queue == w.accepted
  {
    ReachableOk(n, s);
  }

  /** When shutdown returns, every worker has ended, and has run every task it had
      accepted before its shutdown flag was set. */
  lemma ShutdownDrains(n: nat, s: State, t: Tid)
    requires Reachable(n, s) && CallerEnabled(s, t, ShutReturn)
    ensures |s.workers| == n
    ensures forall i: nat | i < n ::
      var w := s.workers[i];
      && w.pc == Exited && !w.running && w.sealed.Some?
      && w.sealed.value <= |w.accepted| && w.accepted[..w.sealed.value] <= w.executed
  {
    ReachableOk(n, s);
    forall i: nat | i < n
      ensures var w := s.workers[i];
        && w.pc == Exited && !w.running && w.sealed.Some?
        && w.sealed.value <= |w.accepted| && w.accepted[..w.sealed.value] <= w.executed
    {
      var w := s.workers[i];
      assert CallerOk(s, Pc(s, t)) && WorkerOk(w);
      assert w.executed <= w.accepted;
      assert w.accepted[..w.sealed.value] == w.executed[..w.sealed.value];
    }
  }

  /** What counts as accepted before the flag: all that was when it was first set. */
  lemma SealedWhenFlagged(s: State, a: Action, i: nat)
    requires Enabled(s, a) && i < |s.workers|
    ensures |Apply(s, a).workers| == |s.workers|
    ensures var w, w' := s.workers[i], Apply(s, a).workers[i];
      && w'.sealed == (if !w.shutdown && w'.shutdown then Some(|w.accepted|) else w.sealed)
      && (!w.shutdown && w'.shutdown ==> w'.accepted == w.accepted)
  {
  }

  /** A step that puts a task into the queue of worker i. */
  predicate Submits(s: State, a: Action, i: nat) {
    i < |s.workers| && a.ByCaller? && ((a.c.Submit? && a.c.id == i) || (a.c.PushTicket? && Holds(Pc(s, a.t), i)))
  }

  function SubmittedTask(s: State, a: Action): Task
    requires a.ByCaller? && (a.c.Submit? || (a.c.PushTicket? && Pc(s, a.t).HasTicket?))
  {
    if a.c.Submit? then a.c.task else Pc(s, a.t).task
  }

  /** The tasks that an execution submits to worker i, in order. */
  ghost function SubmittedTo(s: State, actions: seq<Action>, i: nat): seq<Task>
    decreases |actions|
  {
    if actions == [] || !Enabled(s, actions[0]) then []
    else
      (if Submits(s, actions[0], i) then [SubmittedTask(s, actions[0])] else [])
      + SubmittedTo(Apply(s, actions[0]), actions[1..], i)
  }

  lemma AcceptStep(s: State, a: Action, i: nat)
    requires Enabled(s, a) && i < |s.workers|
    ensures |Apply(s, a).workers| == |s.workers|
    ensures Apply(s, a).workers[i].accepted
         == s.workers[i].accepted + if Submits(s, a, i) then [SubmittedTask(s, a)] else []
  {
  }

  /** What a worker accepts is what is submitted to it, in order, and nothing else. */
  lemma {:induction false} AcceptedAsSubmitted(s: State, actions: seq<Action>, s': State, i: nat)
    requires Executes(s, actions, s') && i < |s.workers|
    ensures |s'.workers| == |s.workers|
    ensures s'.workers[i].accepted == s.workers[i].accepted + SubmittedTo(s, actions, i)
    decreases |actions|
  {
    hide Enabled, Apply, Submits, SubmittedTask;
    if actions != [] {
      AcceptStep(s, actions[0], i);
      AcceptedAsSubmitted(Apply(s, actions[0]), actions[1..], s', i);
    }
  }

  /** Worker i has run the task that it accepted as its p-th. */
  predicate HasRun(s: State, i: nat, p: nat, task: Task) {
    i < |s.workers| && p < |s.workers[i].executed| && s.workers[i].executed[p] == task
  }

  ghost predicate CanRun(s: State, i: nat, p: nat, task: Task) {
    exists actions, s' :: Executes(s, actions, s') && HasRun(s', i, p, task)
  }

  /** Submitting is never refused by a worker that exists, not even by one that has
      ended. The task is ever run if and only if the worker was not done when the
      task was submitted; and then it has been run by the time the worker is done. */
  lemma SubmittedTaskRunsIff(n: nat, s: State, a: Action, i: nat)
    requires Reachable(n, s) && Enabled(s, a) && Submits(s, a, i)
    ensures var s1, task, p := Apply(s, a), SubmittedTask(s, a), |s.workers[i].accepted|;
      && |s1.workers| == |s.workers| && s1.workers[i].accepted == s.workers[i].accepted + [task]
      && Pc(s1, a.t) == Pushed(i)
      && (CanRun(s1, i, p, task) <==> !Done(s.workers[i]))
      && (!Done(s.workers[i]) ==> forall actions, s' ::
            Executes(s1, actions, s') && i < |s'.workers| && Done(s'.workers[i]) ==> HasRun(s', i, p, task))
  {
    hide WakeOk, CallersOk, DealtOk;
    var s1, task, p := Apply(s, a), SubmittedTask(s, a), |s.workers[i].accepted|;
    ReachableOk(n, s);
    StepKeepsInv(s, a);
    forall actions, s' | Executes(s1, actions, s')
      ensures Done(s.workers[i]) ==> !HasRun(s', i, p, task)
      ensures i < |s'.workers| && !Done(s.workers[i]) && Done(s'.workers[i]) ==> HasRun(s', i, p, task)
    {
      RunOrNever(s1, actions, s', i, p, task);
    }
    if !Done(s.workers[i]) {
      var actions, s' := RunNow(s1, i, p);
      RunInOrder(s1, actions, s', i, p, task);
    }
  }

  /** What has been run is what was accepted, also later. */
  lemma RunInOrder(s: State, actions: seq<Action>, s': State, i: nat, p: nat, task: Task)
    requires Inv(s) && Executes(s, actions, s') && i < |s.workers|
    ensures |s'.workers| == |s.workers|
    ensures p < |s.workers[i].accepted| && s.workers[i].accepted[p] == task && p < |s'.workers[i].executed| ==>
      HasRun(s', i, p, task)
  {
    hide WakeOk, CallersOk, DealtOk, Executes;
    ExecutionKeepsInv(s, actions, s');
    ExecutionGrows(s, actions, s', i);
    var w := s'.workers[i];
    assert WorkerOk(w) && s.workers[i].accepted <= w.accepted;
    if p < |s.workers[i].accepted| && p < |w.executed| {
      assert w.executed[p] == (w.executed + InFlight(w) + w.queue)[p] == w.accepted[p];
    }
  }

  lemma RunOrNever(s: State, actions: seq<Action>, s': State, i: nat, p: nat, task: Task)
    requires Inv(s) && Executes(s, actions, s') && i < |s.workers|
    ensures |s'.workers| == |s.workers|
    ensures |s.workers[i].accepted| == p + 1 && s.workers[i].accepted[p] == task ==>
      && (Done(s.workers[i]) && s.workers[i].queue != [] ==> !HasRun(s', i, p, task))
      && (!Done(s.workers[i]) && Done(s'.workers[i]) ==> HasRun(s', i, p, task))
  {
    hide WakeOk, CallersOk, DealtOk, Executes;
    RunInOrder(s, actions, s', i, p, task);
    ExecutionGrows(s, actions, s', i);
    assert WorkerOk(s.workers[i]);
    DrainedWhenDone(s, actions, s', i);
  }

  function NextAct(pc: WorkerPc): WorkerAct {
    match pc
    case Starting => MarkRunning
    case Waiting => Check
    case Blocked => SpuriousWake
    case Took(_) => ClearStop
    case InTask(_) => EndTask
    case _ => MarkStopped
  }

  function StepsToRun(w: Worker, p: nat): nat {
    if |w.executed| > p then 0
    else 3 * (p + 1 - |w.executed|) + match w.pc
      case Starting => 3
      case Blocked => 3
      case Waiting => 2
      case Took(_) => 1
      case _ => 0
  }

  lemma WorkerGetsCloser(w: Worker, p: nat)
    requires WorkerOk(w) && !Done(w) && |w.executed| <= p < |w.accepted|
    ensures WorkerEnabled(w, NextAct(w.pc))
    ensures var w' := WorkerStep(w, NextAct(w.pc));
      !Done(w') && w'.accepted == w.accepted && StepsToRun(w', p) < StepsToRun(w, p)
  {
  }

  /** A worker that is not done can get to any task that it accepted. */
  lemma {:induction false} RunNow(s: State, i: nat, p: nat) returns (actions: seq<Action>, s': State)
    requires Inv(s) && i < |s.workers| && !Done(s.workers[i]) && p < |s.workers[i].accepted|
    ensures Executes(s, actions, s') && i < |s'.workers| && p < |s'.workers[i].executed|
    decreases StepsToRun(s.workers[i], p)
  {
    hide WakeOk, CallersOk, DealtOk, StepsToRun, WorkerStep;
    if p < |s.workers[i].executed| {
      actions, s' := [], s;
    } else {
      var a := ByWorker(i, NextAct(s.workers[i].pc));
      assert WorkerOk(s.workers[i]);
      WorkerGetsCloser(s.workers[i], p);
      StepKeepsInv(s, a);
      var rest;
      rest, s' := RunNow(Apply(s, a), i, p);
      actions := [a] + rest;
      assert actions[1..] == rest;
    }
  }

  // ---- Runs that show it ----

  lemma {:induction false} ExecutesAppend(s: State, actions: seq<Action>, s': State, a: Action)
    requires Executes(s, actions, s') && Enabled(s', a)
    ensures Executes(s, actions + [a], Apply(s', a))
    decreases |actions|
  {
    hide Enabled, Apply;
    if actions == [] {
      assert [a][1..] == [];
      assert Executes(Apply(s, a), [], Apply(s, a));
    } else {
      ExecutesAppend(Apply(s, actions[0]), actions[1..], s', a);
      assert (actions + [a])[1..] == actions[1..] + [a];
    }
  }

  lemma Go(n: nat, s: State, a: Action) returns (s': State)
    requires Reachable(n, s) && Enabled(s, a)
    ensures Reachable(n, s') && s' == Apply(s, a)
  {
    var actions :| Executes(Initial(n), actions, s);
    ExecutesAppend(Initial(n), actions, s, a);
    s' := Apply(s, a);
  }

  lemma NewPool(n: nat) returns (s: State)
    ensures Reachable(n, s) && s == Initial(n)
  {
    s := Initial(n);
    assert Executes(s, [], s);
  }

  /** After a shutdown has set the only worker's flag and the worker has left its
      loop, a task is accepted and never run. */
  lemma TaskAfterShutdown() returns (s: State)
    ensures Reachable(1, s) && Enabled(s, ByCaller(1, Submit(0, 5)))
    ensures Pc(CallerStep(s, 1, Submit(0, 5)), 1) == Pushed(0)
    ensures !CanRun(Apply(s, ByCaller(1, Submit(0, 5))), 0, 0, 5)
  {
    s := DoneWorker();
    SubmittedTaskRunsIff(1, s, ByCaller(1, Submit(0, 5)), 0);
  }

  lemma DoneWorker() returns (s: State)
    ensures Reachable(1, s) && |s.workers| == 1 && Done(s.workers[0]) && s.workers[0].accepted == [] && Pc(s, 1) == Outside
  {
    hide Reachable;
    s := NewPool(1);
    s := Go(1, s, ByWorker(0, MarkRunning));
    s := Go(1, s, ByCaller(0, CallShutdown));
    s := Go(1, s, ByCaller(0, SetFlag));
    s := Go(1, s, ByWorker(0, Check));
  }

  /** A worker that has taken task 5 is asked to stop; the task starts all the same,
      with a clear flag. */
  lemma StopBeforeTask() returns (s: State)
    ensures Reachable(1, s) && |s.workers| == 1 && s.workers[0].pc == Took(5) && s.workers[0].stop
    ensures Enabled(s, ByWorker(0, ClearStop))
    ensures var w := WorkerStep(s.workers[0], ClearStop); w.pc == InTask(5) && !w.stop
  {
    hide Reachable;
    s := NewPool(1);
    s := Go(1, s, ByCaller(0, Submit(0, 5)));
    s := Go(1, s, ByWorker(0, MarkRunning));
    s := Go(1, s, ByWorker(0, Check));
    s := Go(1, s, ByCaller(1, StopWorker(0)));
  }

  /** A worker leaves with an empty queue. */
  lemma {:induction false} DrainedWhenDone(s: State, actions: seq<Action>, s': State, i: nat)
    requires Inv(s) && Executes(s, actions, s') && i < |s.workers|
    ensures i < |s'.workers|
    ensures !Done(s.workers[i]) && Done(s'.workers[i]) ==> s.workers[i].accepted <= s'.workers[i].executed
    decreases |actions|
  {
    hide Inv, Enabled, Apply, Grows, Done;
    if actions != [] {
      var t := Apply(s, actions[0]);
      StepKeepsInv(s, actions[0]);
      StepGrows(s, actions[0]);
      ExecutionGrows(t, actions[1..], s', i);
      DrainedWhenDone(t, actions[1..], s', i);
      DrainedStep(s, actions[0], s', i);
    }
  }

  lemma DrainedStep(s: State, a: Action, s': State, i: nat)
    requires Inv(s) && Enabled(s, a) && i < |s.workers| == |Apply(s, a).workers| && i < |s'.workers|
    requires Grows(Apply(s, a).workers[i], s'.workers[i])
    requires !Done(Apply(s, a).workers[i]) && Done(s'.workers[i]) ==> Apply(s, a).workers[i].accepted <= s'.workers[i].executed
    ensures !Done(s.workers[i]) && Done(s'.workers[i]) ==> s.workers[i].accepted <= s'.workers[i].executed
  {
    hide WakeOk, CallersOk, DealtOk, Enabled, Apply, WorkerOk, Done;
    StepGrows(s, a);
    if !Done(s.workers[i]) && Done(Apply(s, a).workers[i]) {
      LeavesEmpty(s, a, i);
    }
  }

  lemma LeavesEmpty(s: State, a: Action, i: nat)
    requires WorkersOk(s) && Enabled(s, a) && i < |s.workers| && i < |Apply(s, a).workers|
    requires !Done(s.workers[i]) && Done(Apply(s, a).workers[i])
    ensures Apply(s, a).workers[i].executed == s.workers[i].accepted
  {
    assert WorkerOk(s.workers[i]);
    assert s.workers[i].executed + [] + [] == s.workers[i].executed;
  }

  /** From the call of shutdown to its return, over any execution: every worker that
      had not ended before has ended, and has run every task that it had accepted
      before the call. */
  lemma ShutdownRunsAccepted(n: nat, s: State, t: Tid, actions: seq<Action>, s': State)
    requires Reachable(n, s) && CallerEnabled(s, t, CallShutdown)
    requires Executes(CallerStep(s, t, CallShutdown), actions, s') && CallerEnabled(s', t, ShutReturn)
    ensures |s.workers| == |s'.workers| == n
    ensures forall i: nat | i < n ::
      && s'.workers[i].pc == Exited && !s'.workers[i].running
      && (!Done(s.workers[i]) ==> s.workers[i].accepted <= s'.workers[i].executed)
  {
    hide WorkersOk, WakeOk, DealtOk, Executes, Touched, NextCaller;
    ReachableOk(n, s);
    var s1 := CallerStep(s, t, CallShutdown);
    StepKeepsInv(s, ByCaller(t, CallShutdown));
    CallChangesNoWorker(s, t);
    ExecutionKeepsInv(s1, actions, s');
    assert CallerOk(s', Pc(s', t));
    forall i: nat | i < n
      ensures i < |s'.workers| && s'.workers[i].pc == Exited && !s'.workers[i].running
      ensures !Done(s.workers[i]) ==> s.workers[i].accepted <= s'.workers[i].executed
    {
      ExecutionGrows(s1, actions, s', i);
      DrainedWhenDone(s1, actions, s', i);
      ExitedIsIdle(s', i);
    }
  }

  lemma CallChangesNoWorker(s: State, t: Tid)
    requires CallerEnabled(s, t, CallShutdown)
    ensures CallerStep(s, t, CallShutdown).workers == s.workers
  {
  }

  lemma ExitedIsIdle(s: State, i: nat)
    requires WorkersOk(s) && i < |s.workers|
    ensures s.workers[i].pc == Exited ==> !s.workers[i].running
  {
    assert WorkerOk(s.workers[i]);
  }

  /** No wake-up is lost: while a worker sleeps with a task queued or with its
      shutdown flag set, the thread that will notify it has not done so yet. */
  lemma NoLostWakeup(n: nat, s: State, i: nat)
    requires Reachable(n, s) && i < n
    ensures |s.workers| == n
    ensures s.workers[i].pc == Blocked && (s.workers[i].queue != [] || s.workers[i].shutdown) ==>
      exists t, c :: (c == NotifyOne || c == NotifyAll) && CallerEnabled(s, t, c)
                     && CallerStep(s, t, c).workers[i].pc == Waiting
  {
    ReachableOk(n, s);
    assert Notified(s, i);
    if s.workers[i].pc == Blocked && (s.workers[i].queue != [] || s.workers[i].shutdown) {
      var t :| Pc(s, t) == Pushed(i) || Pc(s, t) == ShutNotify(i);
      var c := if Pc(s, t) == Pushed(i) then NotifyOne else NotifyAll;
      assert CallerEnabled(s, t, c) && CallerStep(s, t, c).workers[i].pc == Waiting;
    }
  }

  /** A step that asks worker i to stop: directly, or as part of a shutdown. */
  predicate AsksStop(s: State, a: Action, i: nat) {
    a.ByCaller? && (a.c == StopWorker(i) || (a.c == SetFlag && Pc(s, a.t) == ShutFlag(i)))
  }

  ghost predicate SomeoneAsks(s: State, actions: seq<Action>, i: nat)
    decreases |actions|
  {
    actions != [] && Enabled(s, actions[0]) && (
      AsksStop(s, actions[0], i) || SomeoneAsks(Apply(s, actions[0]), actions[1..], i))
  }

  /** A task starts with a clear stop flag, and while it runs the flag is set
      exactly when somebody has asked its worker to stop since then: requests made
      before the task began are forgotten. */
  lemma {:induction false} TaskSeesStopIff(s: State, actions: seq<Action>, s': State, i: nat)
    requires i < |s.workers| && Enabled(s, ByWorker(i, ClearStop))
    requires Executes(Apply(s, ByWorker(i, ClearStop)), actions, s')
    requires forall k | 0 <= k < |actions| :: !(actions[k].ByWorker? && actions[k].i == i)
    ensures |s'.workers| == |s.workers|
    ensures s'.workers[i].pc == InTask(s.workers[i].pc.task)
    ensures s'.workers[i].stop <==> SomeoneAsks(Apply(s, ByWorker(i, ClearStop)), actions, i)
  {
    StopWhileRunning(Apply(s, ByWorker(i, ClearStop)), actions, s', i);
  }

  lemma {:induction false} StopWhileRunning(s: State, actions: seq<Action>, s': State, i: nat)
    requires i < |s.workers| && s.workers[i].pc.InTask? && Executes(s, actions, s')
    requires forall k | 0 <= k < |actions| :: !(actions[k].ByWorker? && actions[k].i == i)
    ensures |s'.workers| == |s.workers| && s'.workers[i].pc == s.workers[i].pc
    ensures s'.workers[i].stop <==> s.workers[i].stop || SomeoneAsks(s, actions, i)
    decreases |actions|
  {
    if actions != [] {
      var t := Apply(s, actions[0]);
      assert !(actions[0].ByWorker? && actions[0].i == i);
      StopAfterStep(s, actions[0], i);
      assert forall k | 0 <= k < |actions| - 1 :: actions[1..][k] == actions[k + 1];
      StopWhileRunning(t, actions[1..], s', i);
    }
  }

  lemma StopAfterStep(s: State, a: Action, i: nat)
    requires i < |s.workers| && s.workers[i].pc.InTask? && Enabled(s, a) && !(a.ByWorker? && a.i == i)
    ensures var t := Apply(s, a);
      && |t.workers| == |s.workers| && t.workers[i].pc == s.workers[i].pc
      && (t.workers[i].stop <==> s.workers[i].stop || AsksStop(s, a, i))
  {
  }

  // ---- Round robin ----

  lemma DivStep(k: nat, n: nat)
    requires n > 0
    ensures if (k + 1) % n == 0 then k % n == n - 1 && (k + 1) / n == k / n + 1
            else (k + 1) % n == k % n + 1 && (k + 1) / n == k / n
  {
    var q, r := k / n, k % n;
    assert k == n * q + r;
    if r == n - 1 {
      assert k + 1 == n * (q + 1);
      DivUnique(k + 1, n, q + 1, 0);
    } else {
      DivUnique(k + 1, n, q, r + 1);
    }
  }

  lemma {:induction false} AtLeastOnce(n: nat, a: nat, b: nat)
    requires a > b
    ensures n * a >= n * b + n
    decreases a
  {
    if a == b + 1 {
      assert n * (b + 1) == n * b + n;
    } else {
      AtLeastOnce(n, a - 1, b);
      assert n * a == n * (a - 1) + n;
    }
  }

  lemma DivUnique(k: nat, n: nat, q: nat, r: nat)
    requires n > 0 && k == n * q + r && r < n
    ensures k / n == q && k % n == r
  {
    var q', r' := k / n, k % n;
    assert k == n * q' + r' && r' < n;
    if q > q' {
      AtLeastOnce(n, q, q');
    } else if q < q' {
      AtLeastOnce(n, q', q);
    }
  }

  /** Before the counter wraps, worker i has been dealt its full rounds plus one if
      the current round has passed it. */
  lemma {:induction false} DealtBeforeWrap(k: nat, n: nat, i: nat, wrap: nat)
    requires 0 < n && i < n && k <= wrap && 0 < wrap
    ensures Dealt(k, n, i, wrap) == k / n + if i < k % n then 1 else 0
  {
    if k == 0 {
      DivUnique(0, n, 0, 0);
    } else {
      DealtBeforeWrap(k - 1, n, i, wrap);
      DivStep(k - 1, n);
      DivUnique(k - 1, wrap, 0, k - 1);
    }
  }

  function CeilDiv(k: nat, n: nat): nat
    requires n > 0
  {
    k / n + if k % n == 0 then 0 else 1
  }

  predicate Balanced(k: nat, n: nat, wrap: nat)
    requires 0 < n && 0 < wrap
  {
    forall i: nat | i < n :: k / n <= Dealt(k, n, i, wrap) <= CeilDiv(k, n)
  }

  /** With any number of concurrent callers, after K tickets and with no call in
      progress every worker has received the floor or the ceiling of K/n tasks by
      round robin, as long as the counter has not wrapped, and for ever if n divides
      its range. */
  lemma RoundRobinIsBalanced(n: nat, s: State)
    requires Reachable(n, s) && n > 0 && (s.tickets <= WRAP || WRAP % n == 0)
    requires forall t | t in s.callers :: !s.callers[t].HasTicket?
    ensures |s.workers| == n
    ensures forall i: nat | i < n :: s.tickets / n <= s.workers[i].dealt <= CeilDiv(s.tickets, n)
  {
    ReachableOk(n, s);
    forall i: nat | i < n
      ensures s.tickets / n <= s.workers[i].dealt <= CeilDiv(s.tickets, n)
    {
      assert Pending(s, i) == {};
      if WRAP % n == 0 {
        DealtWithoutRemainder(s.tickets, n, i, WRAP);
      } else {
        DealtBeforeWrap(s.tickets, n, i, WRAP);
      }
    }
  }

  lemma TicketKept(s: State, a: Action, t: Tid)
    requires Enabled(s, a) && !(a.ByCaller? && a.t == t)
    ensures Pc(Apply(s, a), t) == Pc(s, t) && |Apply(s, a).workers| == |s.workers|
  {
  }

  lemma {:induction false} TicketsKept(s: State, actions: seq<Action>, s': State, t: Tid)
    requires Executes(s, actions, s')
    requires forall k | 0 <= k < |actions| :: !(actions[k].ByCaller? && actions[k].t == t)
    ensures Pc(s', t) == Pc(s, t) && |s'.workers| == |s.workers|
    decreases |actions|
  {
    hide Enabled, Apply, Pc;
    if actions != [] {
      TicketKept(s, actions[0], t);
      assert forall k | 0 <= k < |actions| - 1 :: actions[1..][k] == actions[k + 1];
      TicketsKept(Apply(s, actions[0]), actions[1..], s', t);
    }
  }

  /** Each call of round robin draws exactly one ticket, and whatever the other
      threads do before it pushes, delivers its task to the worker that the ticket
      names. Without workers it fails and draws none. */
  lemma OneTicketPerCall(n: nat, s: State, t: Tid, task: Task, actions: seq<Action>, s': State)
    requires Reachable(n, s) && CallerEnabled(s, t, TakeTicket(task))
    requires Executes(CallerStep(s, t, TakeTicket(task)), actions, s')
    ensures n == 0 ==> CallerStep(s, t, TakeTicket(task)).tickets == s.tickets
                       && Pc(CallerStep(s, t, TakeTicket(task)), t) == Outside
    ensures n > 0 && (forall k | 0 <= k < |actions| :: !(actions[k].ByCaller? && actions[k].t == t)) ==>
      var id := (s.tickets % WRAP) % n;
      && CallerStep(s, t, TakeTicket(task)).tickets == s.tickets + 1
      && |s'.workers| == n && CallerEnabled(s', t, PushTicket)
      && var done := CallerStep(s', t, PushTicket);
         && |done.workers| == n && Pc(done, t) == Pushed(id) && done.tickets == s'.tickets
         && done.workers[id].accepted == s'.workers[id].accepted + [task]
         && forall i: nat | i < n && i != id :: done.workers[i] == s'.workers[i]
  {
    hide WorkersOk, WakeOk, CallersOk;
    ReachableOk(n, s);
    if forall k | 0 <= k < |actions| :: !(actions[k].ByCaller? && actions[k].t == t) {
      TicketsKept(CallerStep(s, t, TakeTicket(task)), actions, s', t);
    }
  }

  // ---- After the counter wraps ----

  lemma {:induction false} ModOfMultiple(m: nat, n: nat, r: nat)
    requires n > 0
    ensures (n * m + r) % n == r % n
  {
    DivUnique(n * m + r, n, m + r / n, r % n);
  }

  lemma WrapKeepsResidue(k: nat, n: nat, wrap: nat)
    requires n > 0 && wrap > 0 && wrap % n == 0
    ensures (k % wrap) % n == k % n
  {
    var m, q := wrap / n, k / wrap;
    assert k == n * (m * q) + k % wrap by {
      assert k == wrap * q + k % wrap;
      assert wrap == n * m;
      assert wrap * q == n * (m * q);
    }
    ModOfMultiple(m * q, n, k % wrap);
  }

  lemma {:induction false} DealtWithoutRemainder(k: nat, n: nat, i: nat, wrap: nat)
    requires 0 < n && i < n && 0 < wrap && wrap % n == 0
    ensures Dealt(k, n, i, wrap) == k / n + if i < k % n then 1 else 0
  {
    if k == 0 {
      DivUnique(0, n, 0, 0);
    } else {
      DealtWithoutRemainder(k - 1, n, i, wrap);
      DivStep(k - 1, n);
      WrapKeepsResidue(k - 1, n, wrap);
    }
  }

  lemma DealBalancedIff(n: nat, wrap: nat)
    requires 0 < n && 0 < wrap
    ensures (forall k: nat :: Balanced(k, n, wrap)) <==> wrap % n == 0
    ensures wrap % n != 0 ==> Dealt(wrap + 1, n, 0, wrap) > CeilDiv(wrap + 1, n)
  {
    if wrap % n == 0 {
      forall k: nat
        ensures Balanced(k, n, wrap)
      {
        forall i: nat | i < n
          ensures k / n <= Dealt(k, n, i, wrap) <= CeilDiv(k, n)
        {
          DealtWithoutRemainder(k, n, i, wrap);
        }
      }
    } else {
      DealtBeforeWrap(wrap, n, 0, wrap);
      DivStep(wrap, n);
      DivUnique(wrap, wrap, 1, 0);
      DivUnique(0, n, 0, 0);
      assert Dealt(wrap + 1, n, 0, wrap) == wrap / n + 2;
      assert !Balanced(wrap + 1, n, wrap);
    }
  }

  ghost predicate Quiet(s: State) { forall t | t in s.callers :: s.callers[t] == Outside }

  lemma OneCall(n: nat, s: State) returns (s': State)
    requires n > 0 && Reachable(n, s) && |s.workers| == n && Quiet(s)
    ensures Reachable(n, s') && |s'.workers| == n && Quiet(s') && s'.tickets == s.tickets + 1
  {
    hide Reachable;
    s' := Go(n, s, ByCaller(0, TakeTicket(0)));
    s' := Go(n, s', ByCaller(0, PushTicket));
    s' := Go(n, s', ByCaller(0, NotifyOne));
  }

  lemma {:induction false} AfterCalls(n: nat, calls: nat) returns (s: State)
    requires n > 0
    ensures Reachable(n, s) && |s.workers| == n && Quiet(s) && s.tickets == calls
  {
    hide Reachable;
    if calls == 0 {
      s := NewPool(n);
    } else {
      s := AfterCalls(n, calls - 1);
      s := OneCall(n, s);
    }
  }

  lemma QuietIsDealt(n: nat, s: State)
    requires n > 0 && Reachable(n, s) && Quiet(s)
    ensures |s.workers| == n
    ensures forall i: nat | i < n :: s.workers[i].dealt == Dealt(s.tickets, n, i, WRAP)
  {
    ReachableOk(n, s);
    forall i: nat | i < n
      ensures Pending(s, i) == {}
    {
    }
  }

  ghost predicate Shared(s: State)
    requires |s.workers| > 0
  {
    var n := |s.workers|;
    forall i: nat | i < n :: s.tickets / n <= s.workers[i].dealt <= CeilDiv(s.tickets, n)
  }

  /** One ticket after the counter has wrapped, with no call in progress, the first
      worker has been given more than its share. */
  lemma UnevenAfterWrap(n: nat) returns (s: State)
    requires n > 0 && WRAP % n != 0
    ensures Reachable(n, s) && |s.workers| == n && Quiet(s) && s.tickets == WRAP + 1
    ensures s.workers[0].dealt > CeilDiv(WRAP + 1, n)
  {
    hide Reachable, Dealt;
    s := AfterCalls(n, WRAP + 1);
    QuietIsDealt(n, s);
    DealBalancedIff(n, WRAP);
  }

  /** In every reachable state with no call in progress each worker has been given
      its share, exactly when the number of workers divides the range of the
      counter. */
  lemma AlwaysBalancedIff(n: nat)
    requires n > 0
    ensures (forall s | Reachable(n, s) && Quiet(s) && |s.workers| > 0 :: Shared(s)) <==> WRAP % n == 0
  {
    hide Reachable;
    if WRAP % n == 0 {
      forall s | Reachable(n, s) && Quiet(s) && |s.workers| > 0
        ensures Shared(s)
      {
        RoundRobinIsBalanced(n, s);
      }
    } else {
      var s := UnevenAfterWrap(n);
      assert !Shared(s);
    }
  }
}
