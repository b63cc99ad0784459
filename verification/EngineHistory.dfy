/** What an event and a reset do to the rule-driven engine, in terms of the calls
    that configured it. */
module EngineHistory {
  import opened Options
  import opened Engine
  import opened EngineRuns

  /** The record that a lookup of this state finds or makes. */
  function Found(s: Snapshot, id: StateId): StateId { if id in s.states then s.states[id] else INVALID_STATE }

  /** An event goes to the first rule that takes it. An internal rule only acts; any
      other leaves the active state and enters the target, which is active then if it
      has its own record; of exit, action and entry those run that there are. If no
      rule takes the event it is deferred, or reported unhandled, and nothing runs. */
  lemma EventTakesFirstRule(s: Snapshot, event: Event, ask: Ask)
    ensures forall r: nat | FirstTaker(s.rules, r, s.active, event, s.attempts, ask) ::
      var rule, after := s.rules[r], Handle(s, event, ask).0;
      && Handle(s, event, ask).1 == Handled
      && after.fired == s.fired + [Firing(event, r, s.active, s.attempts)] && after.deferred == s.deferred
      && after.active == (if rule.isInternal then s.active else Found(s, rule.dst))
      && after.log == s.log +
           (if rule.isInternal then Ran(rule.action, Acted(r))
            else Ran(s.active in s.exitActions, Exited(s.active))
                 + Ran(rule.action, Acted(r))
                 + Ran(rule.dst in s.entryActions, Entered(rule.dst)))
    ensures (forall r: nat :: !Takes(s.rules, r, s.active, event, s.attempts, ask)) ==>
      Handle(s, event, ask) ==
        (s.(attempts := s.attempts + 1, deferred := s.deferred + if s.defers then [event] else []),
         if s.defers then Deferred else Unhandled)
  {
    hide Fire, Ran, FirstRule, Takes;
    FirstRuleIsFirst(s, event, ask, 0);
    match FirstRule(s, event, ask, 0)
    case None => assert s.deferred + [] == s.deferred;
    case Some(r) =>
      FiringInOrder(s, r);
      FireStates(s, r);
      FiringKeeps(s, r);
  }

  lemma FiringKeeps(s: Snapshot, r: nat)
    requires r < |s.rules|
    ensures Fire(s, r).deferred == s.deferred
  {
  }

  /** A reset leaves the active state, unless there is none or it is the initial one;
      then it enters the initial state if that has its own record, and has no active
      state otherwise. It runs the exit and the entry that there are, and forgets the
      deferred events. */
  lemma ResetRuns(s: Snapshot)
    ensures var r, target := Restarted(s), Found(s, s.initial);
      && r.active == target && r.deferred == []
      && r.log == s.log
           + (Ran(s.active != INVALID_STATE && s.active != s.initial && s.active in s.exitActions, Exited(s.active))
              + Ran(target != INVALID_STATE && target in s.entryActions, Entered(target)))
      && r.rules == s.rules && r.fired == s.fired && r.initial == s.initial && r.attempts == s.attempts
  {
    var exits := Ran(s.active != INVALID_STATE && s.active != s.initial && s.active in s.exitActions, Exited(s.active));
    var entries := Ran(Found(s, s.initial) != INVALID_STATE && Found(s, s.initial) in s.entryActions, Entered(Found(s, s.initial)));
    assert s.log + exits + entries == s.log + (exits + entries);
  }

  /** Configuring runs nothing and moves nothing, but that the first initial state to
      be set, while none is active, becomes the active one. */
  lemma ConfiguringKeepsActive(s: Snapshot, op: Op, ask: Ask)
    requires !op.Submit? && !op.Retry? && !op.ResetOp?
    ensures var t := Step(s, op, ask);
      && t.log == s.log && t.fired == s.fired && t.deferred == s.deferred && t.attempts == s.attempts
      && t.active == (if !op.SetInitialOp? || s.active != INVALID_STATE then s.active
                      else if op.id in s.states then s.states[op.id] else op.id)
  {
  }

  // ---- Configuration ----

  /** The rules added, in order. */
  function RulesAdded(ops: seq<Op>): seq<Rule>
    decreases |ops|
  {
    if ops == [] then []
    else RulesAdded(ops[..|ops| - 1]) + if ops[|ops| - 1].AddRule? then [ops[|ops| - 1].rule] else []
  }

  /** The i-th operation was the last to set the initial state. */
  predicate LastInitial(ops: seq<Op>, i: nat) {
    i < |ops| && ops[i].SetInitialOp? && forall j | i < j < |ops| :: !ops[j].SetInitialOp?
  }

  lemma LastInitialAppend(ops: seq<Op>, op: Op, i: nat)
    ensures LastInitial(ops + [op], i) <==> if op.SetInitialOp? then i == |ops| else LastInitial(ops, i)
    ensures LastInitial(ops, i) ==> i < |ops|
  {
    var all := ops + [op];
    assert all[|ops|] == op;
    assert forall j | 0 <= j < |ops| :: all[j] == ops[j];
  }

  /** What one operation does to the configuration. */
  predicate Configures(s: Snapshot, t: Snapshot, op: Op) {
    && t.rules == s.rules + (if op.AddRule? then [op.rule] else [])
    && t.initial == (if op.SetInitialOp? then op.id else s.initial)
    && t.entryActions == s.entryActions + (if op.OnEntryOp? then {op.id} else {})
    && t.exitActions == s.exitActions + (if op.OnExitOp? then {op.id} else {})
  }

  predicate SameConfiguration(s: Snapshot, t: Snapshot) {
    t.rules == s.rules && t.initial == s.initial && t.entryActions == s.entryActions && t.exitActions == s.exitActions
  }

  lemma HandleConfigures(s: Snapshot, event: Event, ask: Ask)
    ensures SameConfiguration(s, Handle(s, event, ask).0)
  {
    hide Fire, FirstRule;
    match FirstRule(s, event, ask, 0)
    case None =>
    case Some(r) => FireConfigures(s, r);
  }

  lemma FireConfigures(s: Snapshot, r: nat)
    requires r < |s.rules|
    ensures SameConfiguration(s, Fire(s, r))
  {
  }

  lemma {:induction false} HandleAllConfigures(s: Snapshot, events: seq<Event>, ask: Ask)
    ensures SameConfiguration(s, HandleAll(s, events, ask).0)
    decreases |events|
  {
    hide Handle;
    if events != [] {
      HandleAllConfigures(s, events[..|events| - 1], ask);
      HandleConfigures(HandleAll(s, events[..|events| - 1], ask).0, events[|events| - 1], ask);
    }
  }

  lemma RestartConfigures(s: Snapshot)
    ensures SameConfiguration(s, Restarted(s))
  {
  }

  lemma StepConfigures(s: Snapshot, op: Op, ask: Ask)
    ensures Configures(s, Step(s, op, ask), op)
  {
    hide Handle, HandleAll, Restarted;
    match op
    case Submit(event) => HandleConfigures(s, event, ask);
    case Retry => HandleAllConfigures(s.(deferred := []), s.deferred, ask);
    case ResetOp => RestartConfigures(s);
    case _ =>
  }

  /** After any run of a new engine its rules are those added, in that order, its
      initial state is the one set last, and the states with an entry or an exit are
      those for which one was registered. */
  lemma {:induction false} ConfigurationIsAsCalled(s: Snapshot, ops: seq<Op>, ask: Ask)
    requires Fresh(s)
    ensures var t := Run(s, ops, ask);
      && t.rules == RulesAdded(ops)
      && (forall i: nat | LastInitial(ops, i) :: t.initial == ops[i].id)
      && ((forall i: nat :: !LastInitial(ops, i)) ==> t.initial == INVALID_STATE)
      && (forall id: StateId :: id in t.entryActions <==> id in s.entryActions || OnEntryOp(id) in ops)
      && (forall id: StateId :: id in t.exitActions <==> id in s.exitActions || OnExitOp(id) in ops)
    decreases |ops|
  {
    hide Step, LastInitial;
    if ops == [] {
      NothingSet();
    } else {
      var front, op := ops[..|ops| - 1], ops[|ops| - 1];
      ConfigurationIsAsCalled(s, front, ask);
      StepConfigures(Run(s, front, ask), op, ask);
      assert ops == front + [op];
      forall i: nat {
        LastInitialAppend(front, op, i);
      }
      assert op.SetInitialOp? ==> LastInitial(ops, |front|);
    }
  }

  lemma NothingSet()
    ensures forall i: nat :: !LastInitial([], i)
  {
  }
}
