/** The rule-driven state machine engine: the first matching rule whose guard passes
    fires; events that no rule takes may be deferred and tried again later. */
module Engine {
  import opened Options

  type StateId = id: nat | id < 0x1_0000_0000_0000_0000
  type Kind = nat

  const INVALID_STATE: StateId := 0xFFFF_FFFF_FFFF_FFFF

  datatype Event = Event(kind: Kind, data: nat)

  datatype Rule = Rule(src: StateId, kind: Kind, dst: StateId, isAny: bool, isInternal: bool, guarded: bool, action: bool)

  datatype EventResult = Handled | Unhandled | Deferred

  datatype Hook = Exited(id: StateId) | Acted(rule: nat) | Entered(id: StateId)

  /** A rule that fired: for which event, from which state, at which attempt. */
  datatype Firing = Firing(event: Event, rule: nat, from: StateId, attempt: nat)

  /** Guards may answer differently each time: `Ask(n, r)` is what the guard of
      rule r says at the n-th attempt to handle an event. */
  type Ask = (nat, nat) -> bool

  /** states maps an id to the id of the record stored under it, which is invalid
      for a record that was never registered. */
  datatype Snapshot = Snapshot(
    defers: bool,
    initial: StateId,
    active: StateId,
    states: map<StateId, StateId>,
    rules: seq<Rule>,
    entryActions: set<StateId>,
    exitActions: set<StateId>,
    deferred: seq<Event>,
    attempts: nat,
    fired: seq<Firing>,
    log: seq<Hook>)

  predicate Matches(rule: Rule, active: StateId, event: Event) {
    rule.kind == event.kind && (rule.isAny || rule.src == active)
  }

  predicate Fires(s: Snapshot, event: Event, ask: Ask, r: nat)
    requires r < |s.rules|
  {
    Matches(s.rules[r], s.active, event) && (s.rules[r].guarded ==> ask(s.attempts, r))
  }

  /** The first rule from the i-th on that takes the event. */
  function FirstRule(s: Snapshot, event: Event, ask: Ask, i: nat): (r: Option<nat>)
    requires i <= |s.rules|
    ensures r.Some? ==> i <= r.value < |s.rules|
    decreases |s.rules| - i
  {
    if i == |s.rules| then None
    else if Fires(s, event, ask, i) then Some(i)
    else FirstRule(s, event, ask, i + 1)
  }

  /** Looking a state up stores an invalid record when there is none. */
  function Lookup(states: map<StateId, StateId>, id: StateId): map<StateId, StateId> {
    if id in states then states else states[id := INVALID_STATE]
  }

  function Leave(s: Snapshot, id: StateId): Snapshot {
    if id in s.exitActions then s.(log := s.log + [Exited(id)]) else s
  }

  function Enter(s: Snapshot, id: StateId): Snapshot {
    if id in s.entryActions then s.(log := s.log + [Entered(id)]) else s
  }

  function Act(s: Snapshot, r: nat): Snapshot
    requires r < |s.rules|
  {
    if s.rules[r].action then s.(log := s.log + [Acted(r)]) else s
  }

  /** Firing leaves the active state and enters the target, unless internal. */
  function Fire(s: Snapshot, r: nat): Snapshot
    requires r < |s.rules|
  {
    if s.rules[r].isInternal then Act(s, r)
    else
      var left := Leave(s, s.active);
      var states := Lookup(left.states, s.rules[r].dst);
      var moved := left.(states := states, active := states[s.rules[r].dst]);
      Enter(Act(moved, r), s.rules[r].dst)
  }

  function Handle(s: Snapshot, event: Event, ask: Ask): (Snapshot, EventResult) {
    match FirstRule(s, event, ask, 0)
    case Some(r) =>
      var f := Fire(s, r);
      (f.(attempts := s.attempts + 1, fired := s.fired + [Firing(event, r, s.active, s.attempts)]), Handled)
    case None =>
      if s.defers then (s.(attempts := s.attempts + 1, deferred := s.deferred + [event]), Deferred)
      else (s.(attempts := s.attempts + 1), Unhandled)
  }

  /** Handling a list of events one after the other; the result says whether one
      of them was left unhandled. */
  function HandleAll(s: Snapshot, events: seq<Event>, ask: Ask): (Snapshot, EventResult)
    decreases |events|
  {
    if events == [] then (s, Handled)
    else
      var (before, result) := HandleAll(s, events[..|events| - 1], ask);
      var (after, r) := Handle(before, events[|events| - 1], ask);
      (after, if r == Unhandled then Unhandled else result)
  }

  function RetryDeferred(s: Snapshot, ask: Ask): (Snapshot, EventResult) {
    HandleAll(s.(deferred := []), s.deferred, ask)
  }

  function Restarted(s: Snapshot): Snapshot {
    var left := if s.active != INVALID_STATE && s.active != s.initial then Leave(s, s.active) else s;
    var states := Lookup(left.states, s.initial);
    var moved := left.(states := states, active := states[s.initial]);
    var entered := if moved.active != INVALID_STATE then Enter(moved, moved.active) else moved;
    entered.(deferred := [])
  }

  function Register(s: Snapshot, id: StateId): Snapshot {
    if id in s.states then s else s.(states := s.states[id := id])
  }

  function WithInitial(s: Snapshot, id: StateId): Snapshot {
    var registered := Register(s, id).(initial := id);
    if s.active == INVALID_STATE then registered.(active := registered.states[id]) else registered
  }

  // ---- The engine ----

  class StateMachineEngine {
    const defers: bool
    var initial: StateId
    var active: StateId
    var states: map<StateId, StateId>
    var rules: seq<Rule>
    var entryActions: set<StateId>
    var exitActions: set<StateId>
    var deferred: seq<Event>
    var attempts: nat
    ghost var fired: seq<Firing>
    ghost var log: seq<Hook>

    ghost function View(): Snapshot
      reads this
    {
      Snapshot(defers, initial, active, states, rules, entryActions, exitActions, deferred, attempts, fired, log)
    }

    constructor (defers: bool)
      ensures View() == Snapshot(defers, INVALID_STATE, INVALID_STATE, map[], [], {}, {}, [], 0, [], [])
    {
      this.defers := defers;
      initial, active, states, rules := INVALID_STATE, INVALID_STATE, map[], [];
      entryActions, exitActions, deferred, attempts := {}, {}, [], 0;
      fired, log := [], [];
    }

    method RegisterState(id: StateId)
      modifies `states
      ensures View() == Register(old(View()), id)
    {
      if id !in states {
        states := states[id := id];
      }
    }

    method SetInitial(id: StateId)
      modifies `states, `initial, `active
      ensures View() == WithInitial(old(View()), id)
    {
      RegisterState(id);
      initial := id;
      if active == INVALID_STATE {
        active := states[id];
      }
    }

    method AddRule(rule: Rule)
      modifies `rules
      ensures View() == old(View()).(rules := old(rules) + [rule])
    {
      rules := rules + [rule];
    }

    method OnEntry(id: StateId)
      modifies `entryActions
      ensures View() == old(View()).(entryActions := old(entryActions) + {id})
    {
      entryActions := entryActions + {id};
    }

    method OnExit(id: StateId)
      modifies `exitActions
      ensures View() == old(View()).(exitActions := old(exitActions) + {id})
    {
      exitActions := exitActions + {id};
    }

    method RunExit(id: StateId)
      modifies `log
      ensures View() == Leave(old(View()), id)
    {
      if id in exitActions {
        log := log + [Exited(id)];
      }
    }

    method RunEntry(id: StateId)
      modifies `log
      ensures View() == Enter(old(View()), id)
    {
      if id in entryActions {
        log := log + [Entered(id)];
      }
    }

    method RunAction(r: nat)
      requires r < |rules|
      modifies `log
      ensures View() == Act(old(View()), r)
    {
      if rules[r].action {
        log := log + [Acted(r)];
      }
    }

    /** What a subscript on the hash map does: find the record, or make one. */
    method Activate(id: StateId)
      modifies `states, `active
      ensures states == Lookup(old(states), id)
      ensures View() == old(View()).(states := states, active := states[id])
    {
      if id !in states {
        states := states[id := INVALID_STATE];
      }
      active := states[id];
    }

    method ExecuteTransition(r: nat)
      requires r < |rules|
      modifies `states, `active, `log
      ensures View() == Fire(old(View()), r)
    {
      if rules[r].isInternal {
        RunAction(r);
        return;
      }
      var enter := rules[r].dst;
      RunExit(active);
      Activate(enter);
      RunAction(r);
      RunEntry(enter);
    }

    method HandleEnvelope(event: Event, ask: Ask) returns (result: EventResult)
      modifies this
      ensures (View(), result) == Handle(old(View()), event, ask)
    {
      var r := 0;
      while r < |rules|
        invariant 0 <= r <= |rules| && unchanged(this)
        invariant FirstRule(View(), event, ask, 0) == FirstRule(View(), event, ask, r)
      {
        var rule := rules[r];
        if Matches(rule, active, event) {
          if !rule.guarded || ask(attempts, r) {
            ghost var from := active;
            ExecuteTransition(r);
            fired := fired + [Firing(event, r, from, attempts)];
            attempts := attempts + 1;
            return Handled;
          }
        }
        r := r + 1;
      }
      attempts := attempts + 1;
      if defers {
        deferred := deferred + [event];
        return EventResult.Deferred;
      }
      return Unhandled;
    }

    method ProcessDeferred(ask: Ask) returns (result: EventResult)
      modifies this
      ensures (View(), result) == RetryDeferred(old(View()), ask)
    {
      var events := deferred;
      deferred := [];
      ghost var start := View();
      result := Handled;
      var i := 0;
      while i < |events|
        invariant 0 <= i <= |events|
        invariant (View(), result) == HandleAll(start, events[..i], ask)
      {
        var r := HandleEnvelope(events[i], ask);
        if r == Unhandled {
          result := Unhandled;
        }
        assert events[..i + 1][..i] == events[..i];
        i := i + 1;
      }
      assert events[..i] == events;
    }

    method Reset()
      modifies this
      ensures View() == Restarted(old(View()))
    {
      if active != INVALID_STATE && active != initial {
        RunExit(active);
      }
      Activate(initial);
      if active != INVALID_STATE {
        RunEntry(active);
      }
      deferred := [];
    }
  }
}
