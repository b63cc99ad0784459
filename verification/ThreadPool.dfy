/** The thread pool as a state machine: one queue per worker, each under its own
    lock, and any number of threads that submit work, stop workers or shut the
    pool down. What happens under one hold of a lock is one step. */
module ThreadPool {
  import opened Options

  type Tid = nat
  type Task = nat

  /** The round-robin counter has 64 bits. */
  const WRAP: nat := 0x1_0000_0000_0000_0000

  datatype WorkerPc = Starting | Waiting | Blocked | Took(task: Task) | InTask(task: Task) | Leaving | Exited

  /** accepted and executed record all tasks pushed and all tasks that ended;
      sealed is how many had been accepted when the shutdown flag was first set;
      dealt counts the tasks that came by round robin. */
  datatype Worker = Worker(
    queue: seq<Task>,
    shutdown: bool,
    stop: bool,
    running: bool,
    pc: WorkerPc,
    joined: bool,
    accepted: seq<Task>,
    executed: seq<Task>,
    sealed: Option<nat>,
    dealt: nat)

  const NEW_WORKER := Worker([], false, false, false, Starting, false, [], [], None, 0)

  datatype CallerPc =
    | Outside
    | HasTicket(id: nat, task: Task)
    | Pushed(id: nat)
    | ShutFlag(k: nat)
    | ShutNotify(k: nat)
    | ShutJoin(k: nat)

  datatype State = State(workers: seq<Worker>, next: nat, tickets: nat, callers: map<Tid, CallerPc>)

  function Initial(n: nat): State { State(seq(n, i => NEW_WORKER), 0, 0, map[]) }

  function Pc(s: State, t: Tid): CallerPc { if t in s.callers then s.callers[t] else Outside }

  // ---- Workers ----

  datatype WorkerAct = MarkRunning | Check | ClearStop | EndTask | MarkStopped | SpuriousWake

  predicate WorkerEnabled(w: Worker, a: WorkerAct) {
    match a
    case MarkRunning => w.pc == Starting
    case Check => w.pc == Waiting
    case ClearStop => w.pc.Took?
    case EndTask => w.pc.InTask?
    case MarkStopped => w.pc == Leaving
    case SpuriousWake => w.pc == Blocked
  }

  /** Check is one hold of the lock: wait, take the front task, or leave. */
  function WorkerStep(w: Worker, a: WorkerAct): Worker
    requires WorkerEnabled(w, a)
  {
    match a
    case MarkRunning => w.(pc := Waiting, running := true)
    case Check =>
      if !w.shutdown && w.queue == [] then w.(pc := Blocked)
      else if w.queue == [] then w.(pc := Leaving)
      else w.(pc := Took(w.queue[0]), queue := w.queue[1..])
    case ClearStop => w.(pc := InTask(w.pc.task), stop := false)
    case EndTask => w.(pc := Waiting, executed := w.executed + [w.pc.task])
    case MarkStopped => w.(pc := Exited, running := false)
    case SpuriousWake => w.(pc := Waiting)
  }

  function Push(w: Worker, task: Task): Worker {
    w.(queue := w.queue + [task], accepted := w.accepted + [task])
  }

  /** Nobody but the worker waits on its condition variable. */
  function Notify(w: Worker): Worker { if w.pc == Blocked then w.(pc := Waiting) else w }

  function Seal(w: Worker): Worker {
    w.(shutdown := true, stop := true, sealed := if w.shutdown then w.sealed else Some(|w.accepted|))
  }

  // ---- Callers ----

  datatype CallerAct =
    | Submit(id: nat, task: Task)
    | TakeTicket(task: Task)
    | PushTicket
    | NotifyOne
    | StopWorker(id: nat)
    | CallShutdown
    | SetFlag
    | NotifyAll
    | EndFlags
    | Join
    | ShutReturn

  predicate InShutdown(pc: CallerPc) { pc.ShutFlag? || pc.ShutNotify? || pc.ShutJoin? }

  predicate CallerEnabled(s: State, t: Tid, a: CallerAct) {
    var pc, n := Pc(s, t), |s.workers|;
    match a
    case Submit(_, _) => pc == Outside
    case TakeTicket(_) => pc == Outside
    case PushTicket => pc.HasTicket? && pc.id < n
    case NotifyOne => pc.Pushed? && pc.id < n
    case StopWorker(_) => pc == Outside
    case CallShutdown => pc == Outside && forall u | u in s.callers :: !InShutdown(s.callers[u])
    case SetFlag => pc.ShutFlag? && pc.k < n
    case NotifyAll => pc.ShutNotify? && pc.k < n
    case EndFlags => pc == ShutFlag(n)
    case Join => pc.ShutJoin? && pc.k < n && (s.workers[pc.k].joined || s.workers[pc.k].pc == Exited)
    case ShutReturn => pc == ShutJoin(n)
  }

  /** Submitting to a worker that does not exist, or round robin without workers,
      fails and changes nothing. */
  function NextCaller(s: State, t: Tid, a: CallerAct): CallerPc
    requires CallerEnabled(s, t, a)
  {
    var pc, n := Pc(s, t), |s.workers|;
    match a
    case Submit(id, _) => if id < n then Pushed(id) else Outside
    case TakeTicket(task) => if n == 0 then Outside else HasTicket(s.next % n, task)
    case PushTicket => Pushed(pc.id)
    case NotifyOne => Outside
    case StopWorker(_) => Outside
    case CallShutdown => ShutFlag(0)
    case SetFlag => ShutNotify(pc.k)
    case NotifyAll => ShutFlag(pc.k + 1)
    case EndFlags => ShutJoin(0)
    case Join => ShutJoin(pc.k + 1)
    case ShutReturn => Outside
  }

  /** The worker a caller's step touches, and how. */
  function Touched(s: State, t: Tid, a: CallerAct): Option<(nat, Worker)>
    requires CallerEnabled(s, t, a)
    ensures Touched(s, t, a).Some? ==> Touched(s, t, a).value.0 < |s.workers|
  {
    var pc, n := Pc(s, t), |s.workers|;
    match a
    case Submit(id, task) => if id < n then Some((id, Push(s.workers[id], task))) else None
    case PushTicket =>
      var w := Push(s.workers[pc.id], pc.task);
      Some((pc.id, w.(dealt := w.dealt + 1)))
    case NotifyOne => Some((pc.id, Notify(s.workers[pc.id])))
    case StopWorker(id) => if id < n then Some((id, s.workers[id].(stop := true))) else None
    case SetFlag => Some((pc.k, Seal(s.workers[pc.k])))
    case NotifyAll => Some((pc.k, Notify(s.workers[pc.k])))
    case Join => Some((pc.k, s.workers[pc.k].(joined := true)))
    case _ => None
  }

  function CallerStep(s: State, t: Tid, a: CallerAct): State
    requires CallerEnabled(s, t, a)
  {
    var draws := a.TakeTicket? && |s.workers| > 0;
    s.(workers := match Touched(s, t, a)
                  case Some((i, w)) => s.workers[i := w]
                  case None => s.workers,
       next := if draws then (s.next + 1) % WRAP else s.next,
       tickets := if draws then s.tickets + 1 else s.tickets,
       callers := s.callers[t := NextCaller(s, t, a)])
  }

  // ---- Executions ----

  datatype Action = ByWorker(i: nat, w: WorkerAct) | ByCaller(t: Tid, c: CallerAct)

  predicate Enabled(s: State, a: Action) {
    match a
    case ByWorker(i, w) => i < |s.workers| && WorkerEnabled(s.workers[i], w)
    case ByCaller(t, c) => CallerEnabled(s, t, c)
  }

  function Apply(s: State, a: Action): State
    requires Enabled(s, a)
  {
    match a
    case ByWorker(i, w) => s.(workers := s.workers[i := WorkerStep(s.workers[i], w)])
    case ByCaller(t, c) => CallerStep(s, t, c)
  }

  ghost predicate Executes(s: State, actions: seq<Action>, s': State)
    decreases |actions|
  {
    if actions == [] then s' == s
    else Enabled(s, actions[0]) && Executes(Apply(s, actions[0]), actions[1..], s')
  }

  ghost predicate Reachable(n: nat, s: State) {
    exists actions :: Executes(Initial(n), actions, s)
  }

  // ---- Round robin over tickets ----

  /** How many of the first k tickets name worker i out of n, when the counter
      wraps around at `wrap`. */
  function Dealt(k: nat, n: nat, i: nat, wrap: nat): nat
    requires n > 0 && wrap > 0
  {
    if k == 0 then 0 else Dealt(k - 1, n, i, wrap) + if ((k - 1) % wrap) % n == i then 1 else 0
  }
}
