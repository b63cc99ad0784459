/** The event-driven state machine as a step model: any number of threads process
    events under the lock or post them to a queue, and a background thread takes
    posted events one by one, letting go of the lock in between. */
module EventDriven {
  import opened Options

  type Tid = nat
  type State = nat
  type Event = nat

  datatype Transition = Transition(target: State, action: bool, guarded: bool)

  datatype Change = Change(from: State, to: State, event: Event)

  /** A callback that ran: Told is what all observers are told of. */
  datatype Callback =
    | Exited(state: State)
    | Acted(from: State, event: Event)
    | Entered(state: State)
    | Told(change: Change)

  /** Everything that happens under the lock and can touch the current state or
      what an event does. `passes` is what the guard answers. */
  datatype Op =
    | Processed(event: Event, passes: bool, posted: bool)
    | Added(from: State, event: Event, to: State, action: bool, guarded: bool)
    | OnEntry(state: State)
    | OnExit(state: State)
    | ResetTo(initial: State)

  /** The machine proper, and the callbacks that it ran. */
  datatype Core = Core(
    current: State,
    transitions: map<(State, Event), Transition>,
    entryActions: set<State>,
    exitActions: set<State>,
    ran: seq<Callback>)

  /** An event without a transition, or whose guard refuses, is dropped. */
  predicate Handles(c: Core, event: Event, passes: bool) {
    (c.current, event) in c.transitions && (c.transitions[(c.current, event)].guarded ==> passes)
  }

  function Leave(c: Core, state: State): Core {
    if state in c.exitActions then c.(ran := c.ran + [Exited(state)]) else c
  }

  function Enter(c: Core, state: State): Core {
    if state in c.entryActions then c.(ran := c.ran + [Entered(state)]) else c
  }

  function Act(c: Core, from: State, event: Event, action: bool): Core {
    if action then c.(ran := c.ran + [Acted(from, event)]) else c
  }

  function Take(c: Core, event: Event, tr: Transition): Core {
    var left := Leave(c, c.current).(current := tr.target);
    var entered := Enter(Act(left, c.current, event, tr.action), tr.target);
    entered.(ran := entered.ran + [Told(Change(c.current, tr.target, event))])
  }

  function Perform(c: Core, op: Op): Core {
    match op
    case Processed(event, passes, _) =>
      if Handles(c, event, passes) then Take(c, event, c.transitions[(c.current, event)]) else c
    case Added(from, event, to, action, guarded) =>
      c.(transitions := c.transitions[(from, event) := Transition(to, action, guarded)])
    case OnEntry(state) => c.(entryActions := c.entryActions + {state})
    case OnExit(state) => c.(exitActions := c.exitActions + {state})
    case ResetTo(initial) => Enter(c.(current := initial), initial)
  }

  /** What processing an event returns. */
  predicate Answer(c: Core, op: Op) { op.Processed? && Handles(c, op.event, op.passes) }

  /** Where the background thread stands. */
  datatype LoopPc = Ready | Sleeping | Taken(event: Event) | Ended

  datatype CallerPc = Outside | Posted | StopNotify | StopJoin

  /** posted, done, log and answers record every post, every posted event that was
      processed, every operation and what it returned, in the order in which they
      took the lock; sealed is how many events had been posted at the last stop
      that cleared the running flag. */
  datatype Sys = Sys(
    core: Core,
    queue: seq<Event>,
    running: bool,
    loop: Option<LoopPc>,
    callers: map<Tid, CallerPc>,
    log: seq<Op>,
    answers: seq<bool>,
    posted: seq<Event>,
    done: seq<Event>,
    sealed: nat)

  function Initial(garbage: State): Sys {
    Sys(Core(garbage, map[], {}, {}, []), [], false, None, map[], [], [], [], [], 0)
  }

  function Pc(s: Sys, t: Tid): CallerPc { if t in s.callers then s.callers[t] else Outside }

  /** Starting while another thread stops is outside the contract. */
  predicate Stopping(s: Sys) {
    exists t | t in s.callers :: s.callers[t] == StopNotify || s.callers[t] == StopJoin
  }

  datatype Action =
    | Locked(t: Tid, op: Op)
    | Post(t: Tid, event: Event)
    | NotifyOne(t: Tid)
    | StartAsync(t: Tid, created: bool)
    | StopCheck(t: Tid)
    | StopWake(t: Tid)
    | Join(t: Tid)
    | LoopCheck
    | LoopProcess(passes: bool)
    | SpuriousWake

  predicate Enabled(s: Sys, a: Action) {
    match a
    case Locked(t, op) => Pc(s, t) == Outside && !(op.Processed? && op.posted)
    case Post(t, _) => Pc(s, t) == Outside
    case NotifyOne(t) => Pc(s, t) == Posted
    case StartAsync(t, _) => Pc(s, t) == Outside && !Stopping(s)
    case StopCheck(t) => Pc(s, t) == Outside
    case StopWake(t) => Pc(s, t) == StopNotify
    case Join(t) => Pc(s, t) == StopJoin && (s.loop.None? || s.loop == Some(Ended))
    case LoopCheck => s.loop == Some(Ready)
    case LoopProcess(_) => s.loop.Some? && s.loop.value.Taken?
    case SpuriousWake => s.loop == Some(Sleeping)
  }

  function Woken(s: Sys): Option<LoopPc> {
    if s.loop == Some(Sleeping) then Some(Ready) else s.loop
  }

  function Do(s: Sys, op: Op): Sys {
    s.(core := Perform(s.core, op), log := s.log + [op], answers := s.answers + [Answer(s.core, op)])
  }

  function At(s: Sys, t: Tid, pc: CallerPc): Sys { s.(callers := s.callers[t := pc]) }

  function Apply(s: Sys, a: Action): Sys
    requires Enabled(s, a)
  {
    match a
    case Locked(_, op) => Do(s, op)
    case Post(t, event) => At(s, t, Posted).(queue := s.queue + [event], posted := s.posted + [event])
    case NotifyOne(t) => At(s, t, Outside).(loop := Woken(s))
    case StartAsync(_, created) =>
      if s.running then s
      else s.(running := true, loop := if created then Some(Ready) else s.loop)
    case StopCheck(t) =>
      if !s.running then s
      else At(s, t, StopNotify).(running := false, sealed := |s.posted|)
    case StopWake(t) => At(s, t, StopJoin).(loop := Woken(s))
    case Join(t) => At(s, t, Outside).(loop := None)
    case LoopCheck => Check(s)
    case LoopProcess(passes) =>
      var event := s.loop.value.event;
      Do(s, Processed(event, passes, true)).(loop := Some(Ready), done := s.done + [event])
    case SpuriousWake => s.(loop := Some(Ready))
  }

  /** One hold of the lock: sleep, end, or take the front event. */
  function Check(s: Sys): Sys {
    if s.running && s.queue == [] then s.(loop := Some(Sleeping))
    else if s.queue == [] then s.(loop := Some(Ended))
    else s.(loop := Some(Taken(s.queue[0])), queue := s.queue[1..])
  }

  ghost predicate Executes(s: Sys, actions: seq<Action>, s': Sys)
    decreases |actions|
  {
    if actions == [] then s' == s
    else Enabled(s, actions[0]) && Executes(Apply(s, actions[0]), actions[1..], s')
  }

  ghost predicate Reachable(garbage: State, s: Sys) {
    exists actions :: Executes(Initial(garbage), actions, s)
  }
}
