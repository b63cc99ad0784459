/** The stage pipeline as a state machine: one worker thread, any number of
    calling threads, a mutex, a condition variable and an atomic stop flag, under
    sequential consistency. An action is one atomic step of one thread. */
module Pipeline {
  import opened Options

  type Tid = nat
  type Stage = nat
  type Exc = nat

  /** What the code of a stage or of the cleanup did when it ended. */
  datatype Outcome = Returned | Threw(exc: Exc)

  datatype Event =
    | StageBegan(stage: Stage)
    | StageEnded(stage: Stage, outcome: Outcome)
    | StopSeen
    | CleanupBegan(cleanup: Stage, aborted: bool)
    | CleanupEnded(outcome: Outcome)

  /** One activation of the worker's body: the configuration fixed at its start,
      its local variables, and what it did. `late` counts the stages that began
      with the stop flag already set. */
  datatype Run = Run(
    steps: seq<Stage>,
    cleanup: Option<Stage>,
    i: nat,
    aborted: bool,
    failure: Option<Exc>,
    stageFailure: Option<Exc>,
    cleanupOutcome: Option<Outcome>,
    log: seq<Event>,
    late: nat,
    finished: bool)

  function FreshRun(steps: seq<Stage>, cleanup: Option<Stage>): Run {
    Run(steps, cleanup, 0, false, None, None, None, [], 0, false)
  }

  /** Where the worker stands in its body. */
  datatype WorkerPc =
    | LoopTest | Enter | InStage | CheckStop
    | LeaveLoop | CleanupTest | InCleanup
    | WantLock | Commit | Unlock | Notify | Exited

  /** Where a calling thread stands; Outside is outside every call. */
  datatype CallerPc =
    | Outside
    | WantStart | StartJoin | StartFlag | StartRest | StartSpawn | StartUnlock
    | WantWait | InWait | Blocked | WantRethrow

  datatype Holder = Caller(t: Tid) | Worker

  datatype State = State(
    steps: seq<Stage>,
    cleanup: Option<Stage>,
    stop: bool,
    current: int,
    owner: Option<Holder>,
    done: bool,
    failure: Option<Exc>,
    worker: Option<WorkerPc>,
    callers: map<Tid, CallerPc>,
    runs: seq<Run>,
    dying: bool)

  const INITIAL := State([], None, false, -1, None, false, None, None, map[], [], false)

  function Pc(s: State, t: Tid): CallerPc { if t in s.callers then s.callers[t] else Outside }

  /** A worker is joinable and has not reported completion. */
  predicate RunningLocked(s: State) { s.worker.Some? && !s.done }

  // ---- The worker ----

  datatype WorkerAct =
    | TestLoop
    | EnterStage
    | EndStage(outcome: Outcome)
    | TestStop
    | StoreIdle
    | TestCleanup
    | EndCleanup(outcome: Outcome)
    | LockDone
    | SetDone
    | UnlockDone
    | NotifyAll

  predicate WorkerAt(s: State, pc: WorkerPc) { s.worker == Some(pc) && s.runs != [] }

  function Last(s: State): Run
    requires s.runs != []
  {
    s.runs[|s.runs| - 1]
  }

  predicate WorkerEnabled(s: State, a: WorkerAct) {
    match a
    case TestLoop => WorkerAt(s, LoopTest)
    case EnterStage => WorkerAt(s, Enter) && Last(s).i < |s.steps|
    case EndStage(_) => WorkerAt(s, InStage) && Last(s).i < |s.steps|
    case TestStop => WorkerAt(s, CheckStop)
    case StoreIdle => WorkerAt(s, LeaveLoop)
    case TestCleanup => WorkerAt(s, CleanupTest)
    case EndCleanup(_) => WorkerAt(s, InCleanup)
    case LockDone => WorkerAt(s, WantLock) && s.owner.None?
    case SetDone => WorkerAt(s, Commit)
    case UnlockDone => WorkerAt(s, Unlock)
    case NotifyAll => WorkerAt(s, Notify)
  }

  function Wake(pc: CallerPc): CallerPc { if pc == Blocked then WantWait else pc }

  /** Where the worker goes. It reads the configuration unlocked. */
  function NextPc(s: State, a: WorkerAct): WorkerPc
    requires WorkerEnabled(s, a)
  {
    match a
    case TestLoop => if Last(s).i < |s.steps| then Enter else LeaveLoop
    case EnterStage => InStage
    case EndStage(outcome) => if outcome.Threw? then LeaveLoop else CheckStop
    case TestStop => if s.stop then LeaveLoop else LoopTest
    case StoreIdle => CleanupTest
    case TestCleanup => if s.cleanup.Some? then InCleanup else WantLock
    case EndCleanup(_) => WantLock
    case LockDone => Commit
    case SetDone => Unlock
    case UnlockDone => Notify
    case NotifyAll => Exited
  }

  /** What the worker does to its locals, and what it runs: a stage taken from the
      shared vector, not from its own record. */
  function NextRun(s: State, a: WorkerAct): Run
    requires WorkerEnabled(s, a)
  {
    var r := Last(s);
    match a
    case EnterStage =>
      r.(log := r.log + [StageBegan(s.steps[r.i])], late := r.late + if s.stop then 1 else 0)
    case EndStage(outcome) =>
      var r' := r.(log := r.log + [StageEnded(s.steps[r.i], outcome)]);
      if outcome.Threw? then r'.(aborted := true, failure := Some(outcome.exc), stageFailure := Some(outcome.exc))
      else r'
    case TestStop =>
      if s.stop then r.(aborted := true, log := r.log + [StopSeen]) else r.(i := r.i + 1)
    case TestCleanup =>
      if s.cleanup.Some? then r.(log := r.log + [CleanupBegan(s.cleanup.value, r.aborted)]) else r
    case EndCleanup(outcome) =>
      r.(log := r.log + [CleanupEnded(outcome)], cleanupOutcome := Some(outcome),
         failure := if outcome.Threw? && r.failure.None? then Some(outcome.exc) else r.failure)
    case SetDone => r.(finished := true)
    case _ => r
  }

  function WorkerApply(s: State, a: WorkerAct): State
    requires WorkerEnabled(s, a)
  {
    var r := Last(s);
    s.(worker := Some(NextPc(s, a)),
       runs := s.runs[|s.runs| - 1 := NextRun(s, a)],
       current := if a.TestLoop? && r.i < |s.steps| then r.i else if a.StoreIdle? then -1 else s.current,
       owner := if a.LockDone? then Some(Worker) else if a.UnlockDone? then None else s.owner,
       done := s.done || a.SetDone?,
       failure := if a.SetDone? then r.failure else s.failure,
       callers := if a.NotifyAll? then map t | t in s.callers :: Wake(s.callers[t]) else s.callers)
  }

  // ---- A calling thread ----

  datatype CallerAct =
    | SetSteps(steps: seq<Stage>)
    | SetCleanup(cleanup: Option<Stage>)
    | CallStart
    | StartCheck
    | JoinOld
    | ClearFlag
    | ClearRest
    | Spawn(created: bool)
    | StartReturn
    | CallWait
    | CallStop
    | WaitLock
    | WaitTest
    | SpuriousWake
    | Rethrow

  predicate CallerEnabled(s: State, t: Tid, a: CallerAct) {
    match a
    case SetSteps(_) => !s.dying && Pc(s, t) == Outside && s.owner.None?
    case SetCleanup(_) => !s.dying && Pc(s, t) == Outside && s.owner.None?
    case CallStart => !s.dying && Pc(s, t) == Outside
    case StartCheck => Pc(s, t) == WantStart && s.owner.None?
    case JoinOld => Pc(s, t) == StartJoin && (s.worker.None? || s.worker == Some(Exited))
    case ClearFlag => Pc(s, t) == StartFlag
    case ClearRest => Pc(s, t) == StartRest
    case Spawn(_) => Pc(s, t) == StartSpawn
    case StartReturn => Pc(s, t) == StartUnlock
    case CallWait => !s.dying && Pc(s, t) == Outside
    case CallStop => !s.dying && Pc(s, t) == Outside
    case WaitLock => Pc(s, t) == WantWait && s.owner.None?
    case WaitTest => Pc(s, t) == InWait
    case SpuriousWake => Pc(s, t) == Blocked
    case Rethrow => Pc(s, t) == WantRethrow && s.owner.None?
  }

  /** Where the calling thread goes. */
  function NextCaller(s: State, t: Tid, a: CallerAct): CallerPc
    requires CallerEnabled(s, t, a)
  {
    match a
    case SetSteps(_) => Outside
    case SetCleanup(_) => Outside
    case CallStart => WantStart
    case StartCheck => if RunningLocked(s) then Outside else StartJoin
    case JoinOld => StartFlag
    case ClearFlag => StartRest
    case ClearRest => StartSpawn
    case Spawn(_) => StartUnlock
    case StartReturn => Outside
    case CallWait => WantWait
    case CallStop => WantWait
    case WaitLock => InWait
    case WaitTest => if s.done || s.worker.None? then WantRethrow else Blocked
    case SpuriousWake => WantWait
    case Rethrow => Outside
  }

  function NextOwner(s: State, t: Tid, a: CallerAct): Option<Holder>
    requires CallerEnabled(s, t, a)
  {
    match a
    case StartCheck => if RunningLocked(s) then s.owner else Some(Caller(t))
    case StartReturn => None
    case WaitLock => Some(Caller(t))
    case WaitTest => None
    case _ => s.owner
  }

  /** Setting the configuration throws, without effect, while a run is in progress;
      so does starting. Creating the thread may fail. */
  function CallerApply(s: State, t: Tid, a: CallerAct): State
    requires CallerEnabled(s, t, a)
  {
    var created := a == Spawn(true);
    s.(steps := if a.SetSteps? && !RunningLocked(s) then a.steps else s.steps,
       cleanup := if a.SetCleanup? && !RunningLocked(s) then a.cleanup else s.cleanup,
       stop := if a.ClearFlag? then false else s.stop || a.CallStop?,
       current := if a.ClearRest? then -1 else s.current,
       owner := NextOwner(s, t, a),
       done := s.done && !a.ClearRest?,
       failure := if a.ClearRest? then None else s.failure,
       worker := if created then Some(LoopTest) else if a.JoinOld? then None else s.worker,
       callers := s.callers[t := NextCaller(s, t, a)],
       runs := if created then s.runs + [FreshRun(s.steps, s.cleanup)] else s.runs)
  }

  // ---- Actions ----

  /** A stop may be requested at any time, also by a running stage. */
  datatype Action =
    | RequestStop
    | ByWorker(w: WorkerAct)
    | ByCaller(t: Tid, c: CallerAct)
    | Destroy
    | DestroyJoin

  predicate Enabled(s: State, a: Action) {
    match a
    case RequestStop => true
    case ByWorker(w) => WorkerEnabled(s, w)
    case ByCaller(t, c) => CallerEnabled(s, t, c)
    case Destroy => !s.dying && forall t | t in s.callers :: s.callers[t] == Outside
    case DestroyJoin => s.dying && (s.worker.None? || s.worker == Some(Exited))
  }

  function Apply(s: State, a: Action): State
    requires Enabled(s, a)
  {
    match a
    case RequestStop => s.(stop := true)
    case ByWorker(w) => WorkerApply(s, w)
    case ByCaller(t, c) => CallerApply(s, t, c)
    case Destroy => s.(dying := true, stop := true)
    case DestroyJoin => s.(worker := None)
  }

  // ---- Executions ----

  ghost predicate Executes(s: State, actions: seq<Action>, s': State)
    decreases |actions|
  {
    if actions == [] then s' == s
    else Enabled(s, actions[0]) && Executes(Apply(s, actions[0]), actions[1..], s')
  }

  ghost predicate Reachable(s: State) {
    exists actions :: Executes(INITIAL, actions, s)
  }
}
