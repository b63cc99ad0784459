/** What whole runs of the rule-driven engine guarantee. */
module EngineRuns {
  import opened Options
  import opened Engine

  // ---- Which rule fires ----

  /** Rule r would take the event from a state at an attempt: it is for events of that
      kind, and for that state or for any, and its guard, if it has one, passes. */
  predicate Takes(rules: seq<Rule>, r: nat, from: StateId, event: Event, attempt: nat, ask: Ask) {
    && r < |rules|
    && rules[r].kind == event.kind && (rules[r].isAny || rules[r].src == from)
    && (rules[r].guarded ==> ask(attempt, r))
  }

  predicate FirstTaker(rules: seq<Rule>, r: nat, from: StateId, event: Event, attempt: nat, ask: Ask) {
    && Takes(rules, r, from, event, attempt, ask)
    && forall q: nat | q < r :: !Takes(rules, q, from, event, attempt, ask)
  }

  lemma {:induction false} FirstRuleIsFirst(s: Snapshot, event: Event, ask: Ask, i: nat)
    requires i <= |s.rules|
    ensures match FirstRule(s, event, ask, i)
      case Some(r) =>
        && Takes(s.rules, r, s.active, event, s.attempts, ask)
        && (forall q: nat | i <= q < r :: !Takes(s.rules, q, s.active, event, s.attempts, ask))
      case None => forall q: nat | i <= q :: !Takes(s.rules, q, s.active, event, s.attempts, ask)
    decreases |s.rules| - i
  {
    if i < |s.rules| && !Fires(s, event, ask, i) {
      FirstRuleIsFirst(s, event, ask, i + 1);
      assert !Takes(s.rules, i, s.active, event, s.attempts, ask);
    }
  }

  /** An event is handled exactly when some rule takes it. */
  lemma HandledIffTaken(s: Snapshot, event: Event, ask: Ask)
    ensures Handle(s, event, ask).1 == Handled <==>
      exists r: nat :: Takes(s.rules, r, s.active, event, s.attempts, ask)
  {
    FirstRuleIsFirst(s, event, ask, 0);
  }

  function Ran(registered: bool, hook: Hook): seq<Hook> { if registered then [hook] else [] }

  /** What a rule runs, of the callbacks there are: the exit of the active state,
      the action, the entry of the target, in this order; an internal rule only
      acts, and changes nothing else. */
  lemma FiringInOrder(s: Snapshot, r: nat)
    requires r < |s.rules|
    ensures var rule := s.rules[r];
      if rule.isInternal then Fire(s, r) == s.(log := s.log + Ran(rule.action, Acted(r)))
      else Fire(s, r).log == s.log
             + (Ran(s.active in s.exitActions, Exited(s.active))
                + Ran(rule.action, Acted(r))
                + Ran(rule.dst in s.entryActions, Entered(rule.dst)))
  {
    var rule := s.rules[r];
    var exits, acts := Ran(s.active in s.exitActions, Exited(s.active)), Ran(rule.action, Acted(r));
    var entries := Ran(rule.dst in s.entryActions, Entered(rule.dst));
    assert s.log + exits + acts + entries == s.log + (exits + acts + entries);
  }

  // ---- Trying events again ----

  function EventsOf(fired: seq<Firing>): seq<Event> { seq(|fired|, i requires 0 <= i < |fired| => fired[i].event) }

  /** The elements marked with `want`, in order. */
  function Pick(events: seq<Event>, mask: seq<bool>, want: bool): seq<Event>
    requires |mask| == |events|
    decreases |events|
  {
    if events == [] then []
    else
      var n := |events| - 1;
      Pick(events[..n], mask[..n], want) + if mask[n] == want then [events[n]] else []
  }

  /** Which of the events are handled when they are tried one after the other. */
  function HandledMask(s: Snapshot, events: seq<Event>, ask: Ask): (mask: seq<bool>)
    ensures |mask| == |events|
    decreases |events|
  {
    if events == [] then []
    else
      var n := |events| - 1;
      HandledMask(s, events[..n], ask)
      + [FirstRule(HandleAll(s, events[..n], ask).0, events[n], ask, 0).Some?]
  }

  lemma EventsAppend(fired: seq<Firing>, f: Firing)
    ensures EventsOf(fired + [f]) == EventsOf(fired) + [f.event]
  {
  }

  lemma HandleEffect(s: Snapshot, event: Event, ask: Ask)
    ensures var (s', result) := Handle(s, event, ask);
      var taken := FirstRule(s, event, ask, 0).Some?;
      && s'.defers == s.defers && s'.rules == s.rules && s'.attempts == s.attempts + 1
      && EventsOf(s'.fired) == EventsOf(s.fired) + (if taken then [event] else [])
      && s'.deferred == s.deferred + (if !taken && s.defers then [event] else [])
      && result == (if taken then Handled else if s.defers then Deferred else Unhandled)
  {
    if FirstRule(s, event, ask, 0).Some? {
      var r := FirstRule(s, event, ask, 0).value;
      EventsAppend(s.fired, Firing(event, r, s.active, s.attempts));
    }
  }

  lemma {:induction false} HandleAllPicks(s: Snapshot, events: seq<Event>, ask: Ask)
    ensures var (s', result) := HandleAll(s, events, ask);
      var mask := HandledMask(s, events, ask);
      && s'.defers == s.defers && s'.rules == s.rules && s'.attempts == s.attempts + |events|
      && EventsOf(s'.fired) == EventsOf(s.fired) + Pick(events, mask, true)
      && s'.deferred == s.deferred + (if s.defers then Pick(events, mask, false) else [])
      && (result == Unhandled <==> !s.defers && Pick(events, mask, false) != [])
    decreases |events|
  {
    hide Handle, HandleAll, HandledMask, Pick, EventsOf, FirstRule;
    if events == [] {
      NothingToHandle(s, events, ask);
    } else {
      var n := |events| - 1;
      HandleAllPicks(s, events[..n], ask);
      HandleAllLast(s, events, ask);
      HandleEffect(HandleAll(s, events[..n], ask).0, events[n], ask);
      PickOneMore(events, HandledMask(s, events, ask), true);
      PickOneMore(events, HandledMask(s, events, ask), false);
    }
  }

  lemma NothingToHandle(s: Snapshot, events: seq<Event>, ask: Ask)
    requires events == []
    ensures HandleAll(s, events, ask) == (s, Handled) && HandledMask(s, events, ask) == []
    ensures forall want :: Pick(events, [], want) == []
  {
  }

  lemma HandleAllLast(s: Snapshot, events: seq<Event>, ask: Ask)
    requires events != []
    ensures var n := |events| - 1;
      var (before, result) := HandleAll(s, events[..n], ask);
      var (after, last) := Handle(before, events[n], ask);
      && HandleAll(s, events, ask) == (after, if last == Unhandled then Unhandled else result)
      && HandledMask(s, events, ask) == HandledMask(s, events[..n], ask) + [FirstRule(before, events[n], ask, 0).Some?]
  {
    hide Handle, FirstRule;
  }

  lemma PickOneMore(events: seq<Event>, mask: seq<bool>, want: bool)
    requires |mask| == |events| > 0
    ensures var n := |events| - 1;
      Pick(events, mask, want) == Pick(events[..n], mask[..n], want) + if mask[n] == want then [events[n]] else []
  {
  }

  /** Processing the deferred events tries each of them once, in order: those that
      are handled fire in the order in which they were deferred, and the others
      remain, in that order too. */
  lemma RetryPartitions(s: Snapshot, ask: Ask)
    requires s.defers
    ensures var (s', result) := RetryDeferred(s, ask);
      var mask := HandledMask(s.(deferred := []), s.deferred, ask);
      && result == Handled
      && s'.attempts == s.attempts + |s.deferred|
      && EventsOf(s'.fired) == EventsOf(s.fired) + Pick(s.deferred, mask, true)
      && s'.deferred == Pick(s.deferred, mask, false)
  {
    HandleAllPicks(s.(deferred := []), s.deferred, ask);
    ResultIsHandled(s.(deferred := []), s.deferred, ask);
  }

  lemma {:induction false} ResultIsHandled(s: Snapshot, events: seq<Event>, ask: Ask)
    ensures HandleAll(s, events, ask).1 == Handled || HandleAll(s, events, ask).1 == Unhandled
    decreases |events|
  {
    if events != [] {
      ResultIsHandled(s, events[..|events| - 1], ask);
    }
  }

  lemma {:induction false} PickConserves(events: seq<Event>, mask: seq<bool>)
    requires |mask| == |events|
    ensures multiset(events) == multiset(Pick(events, mask, true)) + multiset(Pick(events, mask, false))
    decreases |events|
  {
    hide Pick;
    if events == [] {
      PickNone(events, mask);
    } else {
      var n := |events| - 1;
      PickConserves(events[..n], mask[..n]);
      PickLast(events, mask, true);
      PickLast(events, mask, false);
      assert events == events[..n] + [events[n]];
      Deal(multiset(events[..n]), multiset(Pick(events[..n], mask[..n], true)),
           multiset(Pick(events[..n], mask[..n], false)), events[n], mask[n]);
    }
  }

  lemma Deal(front: multiset<Event>, yes: multiset<Event>, no: multiset<Event>, e: Event, marked: bool)
    requires front == yes + no
    ensures front + multiset{e}
         == (yes + if marked then multiset{e} else multiset{}) + (no + if marked then multiset{} else multiset{e})
  {
  }

  lemma PickNone(events: seq<Event>, mask: seq<bool>)
    requires |mask| == |events| == 0
    ensures Pick(events, mask, true) == Pick(events, mask, false) == []
  {
  }

  lemma PickLast(events: seq<Event>, mask: seq<bool>, want: bool)
    requires |mask| == |events| > 0
    ensures var n := |events| - 1;
      multiset(Pick(events, mask, want))
        == multiset(Pick(events[..n], mask[..n], want)) + if mask[n] == want then multiset{events[n]} else multiset{}
  {
  }

  // ---- Runs ----

  datatype Op =
    | Submit(event: Event)
    | Retry
    | ResetOp
    | AddRule(rule: Rule)
    | RegisterState(id: StateId)
    | SetInitialOp(id: StateId)
    | OnEntryOp(id: StateId)
    | OnExitOp(id: StateId)

  function Step(s: Snapshot, op: Op, ask: Ask): Snapshot {
    match op
    case Submit(event) => Handle(s, event, ask).0
    case Retry => RetryDeferred(s, ask).0
    case ResetOp => Restarted(s)
    case AddRule(rule) => s.(rules := s.rules + [rule])
    case RegisterState(id) => Register(s, id)
    case SetInitialOp(id) => WithInitial(s, id)
    case OnEntryOp(id) => s.(entryActions := s.entryActions + {id})
    case OnExitOp(id) => s.(exitActions := s.exitActions + {id})
  }

  function Run(s: Snapshot, ops: seq<Op>, ask: Ask): Snapshot
    decreases |ops|
  {
    if ops == [] then s else Step(Run(s, ops[..|ops| - 1], ask), ops[|ops| - 1], ask)
  }

  function Submitted(ops: seq<Op>): multiset<Event>
    decreases |ops|
  {
    if ops == [] then multiset{}
    else Submitted(ops[..|ops| - 1]) + if ops[|ops| - 1].Submit? then multiset{ops[|ops| - 1].event} else multiset{}
  }

  /** The events that were pending at a reset. */
  function Discarded(s: Snapshot, ops: seq<Op>, ask: Ask): multiset<Event>
    decreases |ops|
  {
    if ops == [] then multiset{}
    else
      var front := ops[..|ops| - 1];
      Discarded(s, front, ask)
      + if ops[|ops| - 1].ResetOp? then multiset(Run(s, front, ask).deferred) else multiset{}
  }

  /** A new engine. */
  predicate Fresh(s: Snapshot) {
    && s.deferred == [] && s.fired == [] && s.attempts == 0
    && s.states == map[] && s.active == INVALID_STATE && s.initial == INVALID_STATE && s.rules == []
  }

  function Accounted(s: Snapshot): multiset<Event> { multiset(EventsOf(s.fired)) + multiset(s.deferred) }

  lemma SubmitConserves(s: Snapshot, event: Event, ask: Ask)
    requires s.defers
    ensures Accounted(Handle(s, event, ask).0) == Accounted(s) + multiset{event}
  {
    hide Handle, EventsOf;
    HandleEffect(s, event, ask);
  }

  lemma RetryConserves(s: Snapshot, ask: Ask)
    requires s.defers
    ensures RetryDeferred(s, ask).0.defers
    ensures Accounted(RetryDeferred(s, ask).0) == Accounted(s)
  {
    hide EventsOf, HandleAll, Pick, HandledMask;
    var mask := HandledMask(s.(deferred := []), s.deferred, ask);
    RetryPartitions(s, ask);
    HandleAllPicks(s.(deferred := []), s.deferred, ask);
    PickConserves(s.deferred, mask);
  }

  lemma StepConserves(s: Snapshot, op: Op, ask: Ask)
    requires s.defers
    ensures Step(s, op, ask).defers
    ensures Accounted(Step(s, op, ask)) + (if op.ResetOp? then multiset(s.deferred) else multiset{})
         == Accounted(s) + (if op.Submit? then multiset{op.event} else multiset{})
  {
    match op
    case Submit(event) =>
      HandleEffect(s, event, ask);
      SubmitConserves(s, event, ask);
      hide Handle;
    case Retry =>
      RetryConserves(s, ask);
      hide RetryDeferred;
    case ResetOp =>
      assert Restarted(s).fired == s.fired && Restarted(s).deferred == [];
    case _ =>
      assert Step(s, op, ask).fired == s.fired && Step(s, op, ask).deferred == s.deferred;
  }

  lemma Carry(submitted: multiset<Event>, before: multiset<Event>, discarded: multiset<Event>,
              arrived: multiset<Event>, dropped: multiset<Event>, after: multiset<Event>)
    requires submitted == before + discarded && after + dropped == before + arrived
    ensures submitted + arrived == after + (discarded + dropped)
  {
    calc {
      submitted + arrived;
      (before + arrived) + discarded;
      (after + dropped) + discarded;
      after + (discarded + dropped);
    }
  }

  /** With deferral on, over any run every submitted event has been handled once, or
      is still deferred, or was pending at a reset; nothing is lost or repeated. */
  lemma {:induction false} EventsAreConserved(s: Snapshot, ops: seq<Op>, ask: Ask)
    requires Fresh(s) && s.defers
    ensures Run(s, ops, ask).defers
    ensures Submitted(ops)
         == multiset(EventsOf(Run(s, ops, ask).fired)) + multiset(Run(s, ops, ask).deferred) + Discarded(s, ops, ask)
    decreases |ops|
  {
    if ops != [] {
      var front, op := ops[..|ops| - 1], ops[|ops| - 1];
      var before, after := Run(s, front, ask), Run(s, ops, ask);
      var arrived := if op.Submit? then multiset{op.event} else multiset{};
      var dropped := if op.ResetOp? then multiset(before.deferred) else multiset{};
      EventsAreConserved(s, front, ask);
      StepConserves(before, op, ask);
      hide Step, EventsOf, Run, Handle, RetryDeferred;
      Carry(Submitted(front), Accounted(before), Discarded(s, front, ask), arrived, dropped, Accounted(after));
    }
  }

  /** With deferral off nothing is ever pending, so trying again does nothing and
      reports success. */
  lemma {:induction false} NothingDeferredWhenOff(s: Snapshot, ops: seq<Op>, ask: Ask)
    requires Fresh(s) && !s.defers
    ensures var r := Run(s, ops, ask);
      !r.defers && r.deferred == [] && RetryDeferred(r, ask) == (r, Handled)
    decreases |ops|
  {
    if ops != [] {
      var front, op := ops[..|ops| - 1], ops[|ops| - 1];
      NothingDeferredWhenOff(s, front, ask);
      if op.Submit? {
        HandleEffect(Run(s, front, ask), op.event, ask);
      }
    }
  }

  // ---- Every firing was due ----

  predicate FiringOk(s: Snapshot, f: Firing, ask: Ask) {
    f.attempt < s.attempts && FirstTaker(s.rules, f.rule, f.from, f.event, f.attempt, ask)
  }

  predicate FiringsOk(s: Snapshot, ask: Ask) {
    && (forall k | 0 <= k < |s.fired| :: FiringOk(s, s.fired[k], ask))
    && (forall j, k | 0 <= j < k < |s.fired| :: s.fired[j].attempt < s.fired[k].attempt)
  }

  lemma FiringsAppend(s: Snapshot, t: Snapshot, f: Firing, ask: Ask)
    requires FiringsOk(s, ask) && t.rules == s.rules && t.attempts == s.attempts + 1
    requires t.fired == s.fired || (t.fired == s.fired + [f] && f.attempt == s.attempts)
    requires FirstTaker(s.rules, f.rule, f.from, f.event, f.attempt, ask) || t.fired == s.fired
    ensures FiringsOk(t, ask)
  {
    hide FirstTaker;
    forall k | 0 <= k < |s.fired|
      ensures FiringOk(t, t.fired[k], ask)
    {
      assert FiringOk(s, s.fired[k], ask);
    }
  }

  lemma HandleKeepsFirings(s: Snapshot, event: Event, ask: Ask)
    requires FiringsOk(s, ask)
    ensures FiringsOk(Handle(s, event, ask).0, ask)
  {
    hide FiringsOk, FirstRule, Takes;
    FirstRuleIsFirst(s, event, ask, 0);
    var r := match FirstRule(s, event, ask, 0) case Some(r) => r case None => 0;
    FiringsAppend(s, Handle(s, event, ask).0, Firing(event, r, s.active, s.attempts), ask);
  }

  lemma {:induction false} HandleAllKeepsFirings(s: Snapshot, events: seq<Event>, ask: Ask)
    requires FiringsOk(s, ask)
    ensures FiringsOk(HandleAll(s, events, ask).0, ask)
    decreases |events|
  {
    if events != [] {
      HandleAllKeepsFirings(s, events[..|events| - 1], ask);
      HandleKeepsFirings(HandleAll(s, events[..|events| - 1], ask).0, events[|events| - 1], ask);
    }
  }

  lemma AddRuleKeepsFirings(s: Snapshot, rule: Rule, ask: Ask)
    requires FiringsOk(s, ask)
    ensures FiringsOk(s.(rules := s.rules + [rule]), ask)
  {
    var t := s.(rules := s.rules + [rule]);
    forall k | 0 <= k < |s.fired|
      ensures FiringOk(t, t.fired[k], ask)
    {
      var f := s.fired[k];
      assert FiringOk(s, f, ask);
      forall q: nat | q < f.rule
        ensures !Takes(t.rules, q, f.from, f.event, f.attempt, ask)
      {
        assert !Takes(s.rules, q, f.from, f.event, f.attempt, ask);
      }
    }
  }

  lemma RestartKeepsFirings(s: Snapshot, ask: Ask)
    requires FiringsOk(s, ask)
    ensures FiringsOk(Restarted(s), ask)
  {
    assert Restarted(s).fired == s.fired && Restarted(s).rules == s.rules && Restarted(s).attempts == s.attempts;
  }

  /** Over any run, each handled event fired the first rule, in the order in which
      rules were added, that matched it with a passing guard; and no attempt fired
      more than one rule. */
  lemma {:induction false} FirstRuleAlwaysFires(s: Snapshot, ops: seq<Op>, ask: Ask)
    requires Fresh(s)
    ensures FiringsOk(Run(s, ops, ask), ask)
    decreases |ops|
  {
    hide Handle, HandleAll, Restarted, FirstTaker;
    if ops != [] {
      var front, op := ops[..|ops| - 1], ops[|ops| - 1];
      var before := Run(s, front, ask);
      FirstRuleAlwaysFires(s, front, ask);
      match op
      case Submit(event) => HandleKeepsFirings(before, event, ask);
      case Retry => HandleAllKeepsFirings(before.(deferred := []), before.deferred, ask);
      case AddRule(rule) => AddRuleKeepsFirings(before, rule, ask);
      case ResetOp => RestartKeepsFirings(before, ask);
      case _ =>
    }
  }

  // ---- Unregistered states ----

  /** Registered records carry their own id, all others the invalid one. */
  predicate StatesOk(s: Snapshot) {
    && (forall id | id in s.states :: s.states[id] == id || s.states[id] == INVALID_STATE)
    && (s.active != INVALID_STATE ==> s.active in s.states && s.states[s.active] == s.active)
  }

  lemma FireStates(s: Snapshot, r: nat)
    requires r < |s.rules|
    ensures var t, rule := Fire(s, r), s.rules[r];
      && t.states == (if rule.isInternal then s.states else Lookup(s.states, rule.dst))
      && t.active == (if rule.isInternal then s.active else Lookup(s.states, rule.dst)[rule.dst])
  {
  }

  lemma HandleKeepsStates(s: Snapshot, event: Event, ask: Ask)
    requires StatesOk(s)
    ensures StatesOk(Handle(s, event, ask).0)
    ensures forall id | id in s.states :: id in Handle(s, event, ask).0.states && Handle(s, event, ask).0.states[id] == s.states[id]
  {
    hide Fire, FirstRule;
    if FirstRule(s, event, ask, 0).Some? {
      FireStates(s, FirstRule(s, event, ask, 0).value);
    }
  }

  lemma {:induction false} HandleAllKeepsStates(s: Snapshot, events: seq<Event>, ask: Ask)
    requires StatesOk(s)
    ensures var t := HandleAll(s, events, ask).0;
      StatesOk(t) && forall id | id in s.states :: id in t.states && t.states[id] == s.states[id]
    decreases |events|
  {
    if events != [] {
      HandleAllKeepsStates(s, events[..|events| - 1], ask);
      HandleKeepsStates(HandleAll(s, events[..|events| - 1], ask).0, events[|events| - 1], ask);
    }
  }

  lemma StepKeepsStates(s: Snapshot, op: Op, ask: Ask)
    requires StatesOk(s)
    ensures var t := Step(s, op, ask);
      StatesOk(t) && forall id | id in s.states :: id in t.states && t.states[id] == s.states[id]
  {
    hide Handle, HandleAll, Restarted;
    match op
    case Submit(event) => HandleKeepsStates(s, event, ask);
    case Retry => HandleAllKeepsStates(s.(deferred := []), s.deferred, ask);
    case ResetOp => RestartKeepsStates(s);
    case _ =>
  }

  lemma RestartStates(s: Snapshot)
    ensures Restarted(s).states == Lookup(s.states, s.initial)
    ensures Restarted(s).active == Lookup(s.states, s.initial)[s.initial]
  {
  }

  lemma RestartKeepsStates(s: Snapshot)
    requires StatesOk(s)
    ensures StatesOk(Restarted(s))
    ensures forall id | id in s.states :: id in Restarted(s).states && Restarted(s).states[id] == s.states[id]
  {
    hide Restarted;
    RestartStates(s);
  }

  lemma {:induction false} RunKeepsStates(s: Snapshot, ops: seq<Op>, ask: Ask)
    requires StatesOk(s)
    ensures var t := Run(s, ops, ask);
      StatesOk(t) && forall id | id in s.states :: id in t.states && t.states[id] == s.states[id]
    decreases |ops|
  {
    if ops != [] {
      RunKeepsStates(s, ops[..|ops| - 1], ask);
      StepKeepsStates(Run(s, ops[..|ops| - 1], ask), ops[|ops| - 1], ask);
    }
  }

  /** The smallest case: from state 1 a rule leads to state 2, which nobody has
      registered. Afterwards nothing is active, and registering 2 does not help. */
  lemma UnregisteredTarget(ask: Ask)
    ensures var s := Snapshot(true, INVALID_STATE, INVALID_STATE, map[], [], {}, {}, [], 0, [], []);
      var rule, event := Rule(1, 0, 2, false, false, false, false), Event(0, 0);
      var ops := [SetInitialOp(1), AddRule(rule), Submit(event), RegisterState(2)];
      && Fresh(s)
      && Run(s, ops[..2], ask).active == 1
      && Run(s, ops[..3], ask).active == INVALID_STATE && Run(s, ops[..3], ask).deferred == []
      && Run(s, ops, ask).active == INVALID_STATE && Run(s, ops, ask).states[2] == INVALID_STATE
  {
    var s := Snapshot(true, INVALID_STATE, INVALID_STATE, map[], [], {}, {}, [], 0, [], []);
    var rule, event := Rule(1, 0, 2, false, false, false, false), Event(0, 0);
    var ops := [SetInitialOp(1), AddRule(rule), Submit(event), RegisterState(2)];
    hide Step;
    RunOne(s, [], SetInitialOp(1), ask);
    RunOne(s, ops[..1], AddRule(rule), ask);
    RunOne(s, ops[..2], Submit(event), ask);
    RunOne(s, ops[..3], RegisterState(2), ask);
    assert ops[..1] == [] + [SetInitialOp(1)] && ops[..2] == ops[..1] + [AddRule(rule)];
    assert ops[..3] == ops[..2] + [Submit(event)] && ops == ops[..3] + [RegisterState(2)];
    SubmitToUnregistered(s, rule, event, ask);
  }

  lemma RunOne(s: Snapshot, ops: seq<Op>, op: Op, ask: Ask)
    ensures Run(s, ops + [op], ask) == Step(Run(s, ops, ask), op, ask)
  {
    assert (ops + [op])[..|ops|] == ops;
  }

  lemma SubmitToUnregistered(s: Snapshot, rule: Rule, event: Event, ask: Ask)
    requires Fresh(s) && rule == Rule(1, 0, 2, false, false, false, false) && event == Event(0, 0)
    ensures var s2 := Step(Step(s, SetInitialOp(1), ask), AddRule(rule), ask);
      var s3 := Step(s2, Submit(event), ask);
      var s4 := Step(s3, RegisterState(2), ask);
      && s2.active == 1 && s3.active == INVALID_STATE && s3.deferred == []
      && s4.active == INVALID_STATE && 2 in s4.states && s4.states[2] == INVALID_STATE
  {
    var s2 := Step(Step(s, SetInitialOp(1), ask), AddRule(rule), ask);
    assert Fires(s2, event, ask, 0);
    FireStates(s2, 0);
  }
}
