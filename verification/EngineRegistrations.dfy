/** Which states of the rule-driven engine can become active: what counts is whether
    a state was registered before anything looked it up. */
module EngineRegistrations {
  import opened Options
  import opened Engine
  import opened EngineRuns

  predicate Registers(op: Op, id: StateId) { op == RegisterState(id) || op == SetInitialOp(id) }

  /** The firing leads to this state. */
  predicate LeadsTo(rules: seq<Rule>, f: Firing, id: StateId) {
    f.rule < |rules| && !rules[f.rule].isInternal && rules[f.rule].dst == id
  }

  /** One of the firings between two moments led to this state. */
  predicate LedTo(s: Snapshot, t: Snapshot, id: StateId) {
    exists k | |s.fired| <= k < |t.fired| :: LeadsTo(s.rules, t.fired[k], id)
  }

  /** The operation looks the record of this state up: a reset that of the initial
      state, an event those of the targets it leads to. */
  predicate LooksUp(s: Snapshot, op: Op, ask: Ask, id: StateId) {
    (op.ResetOp? && s.initial == id) || LedTo(s, Step(s, op, ask), id)
  }

  predicate RegistersAt(ops: seq<Op>, n: nat, id: StateId) { n < |ops| && Registers(ops[n], id) }

  predicate LooksUpAt(s: Snapshot, ops: seq<Op>, ask: Ask, n: nat, id: StateId) {
    n < |ops| && LooksUp(Run(s, ops[..n], ask), ops[n], ask, id)
  }

  /** A registration came before any lookup. */
  ghost predicate RegisteredFirst(s: Snapshot, ops: seq<Op>, ask: Ask, id: StateId) {
    exists n: nat :: RegistersAt(ops, n, id) && forall m: nat | m < n :: !LooksUpAt(s, ops, ask, m, id)
  }

  /** A lookup came before any registration. */
  ghost predicate LookedUpFirst(s: Snapshot, ops: seq<Op>, ask: Ask, id: StateId) {
    exists n: nat :: LooksUpAt(s, ops, ask, n, id) && forall m: nat | m < n :: !RegistersAt(ops, m, id)
  }

  ghost predicate NeverMet(s: Snapshot, ops: seq<Op>, ask: Ask, id: StateId) {
    forall n: nat :: !RegistersAt(ops, n, id) && !LooksUpAt(s, ops, ask, n, id)
  }

  predicate HasOwn(s: Snapshot, id: StateId) { id in s.states && s.states[id] == id }

  predicate HasInvalid(s: Snapshot, id: StateId) { id in s.states && s.states[id] == INVALID_STATE }

  // ---- One operation ----

  /** Between the two moments an unknown state got a record exactly if a firing led
      to it, and then an invalid one. */
  predicate RecordsBy(s: Snapshot, t: Snapshot, id: StateId) {
    && |s.fired| <= |t.fired| && t.fired[..|s.fired|] == s.fired && t.rules == s.rules
    && (id in s.states ==> id in t.states && t.states[id] == s.states[id])
    && (id !in s.states ==> (id in t.states <==> LedTo(s, t, id)) && (id in t.states ==> HasInvalid(t, id)))
  }

  lemma HandleRecordsBy(s: Snapshot, event: Event, ask: Ask, id: StateId)
    ensures RecordsBy(s, Handle(s, event, ask).0, id)
  {
    hide Fire, FirstRule;
    var t := Handle(s, event, ask).0;
    match FirstRule(s, event, ask, 0)
    case Some(r) =>
      FireStates(s, r);
      FireKeeps(s, r);
      assert t.fired[|s.fired|].rule == r;
    case None =>
  }

  lemma FireKeeps(s: Snapshot, r: nat)
    requires r < |s.rules|
    ensures Fire(s, r).rules == s.rules && Fire(s, r).fired == s.fired
  {
  }

  lemma RecordsChain(s: Snapshot, t: Snapshot, u: Snapshot, id: StateId)
    requires RecordsBy(s, t, id) && RecordsBy(t, u, id)
    ensures RecordsBy(s, u, id)
  {
    hide LeadsTo;
    if LedTo(s, t, id) {
      var k :| |s.fired| <= k < |t.fired| && LeadsTo(s.rules, t.fired[k], id);
      assert u.fired[k] == u.fired[..|t.fired|][k];
    }
    if LedTo(t, u, id) {
      var k :| |t.fired| <= k < |u.fired| && LeadsTo(t.rules, u.fired[k], id);
    }
    if LedTo(s, u, id) {
      var k :| |s.fired| <= k < |u.fired| && LeadsTo(s.rules, u.fired[k], id);
      if k < |t.fired| {
        assert t.fired[k] == u.fired[..|t.fired|][k];
      }
    }
    assert u.fired[..|s.fired|] == u.fired[..|t.fired|][..|s.fired|];
  }

  lemma {:induction false} HandleAllRecordsBy(s: Snapshot, events: seq<Event>, ask: Ask, id: StateId)
    ensures RecordsBy(s, HandleAll(s, events, ask).0, id)
    decreases |events|
  {
    hide RecordsBy, Handle;
    if events == [] {
      SameRecords(s, id);
    } else {
      var before := HandleAll(s, events[..|events| - 1], ask).0;
      HandleAllRecordsBy(s, events[..|events| - 1], ask, id);
      HandleRecordsBy(before, events[|events| - 1], ask, id);
      RecordsChain(s, before, HandleAll(s, events, ask).0, id);
    }
  }

  lemma SameRecords(s: Snapshot, id: StateId)
    ensures RecordsBy(s, s, id)
  {
  }

  /** A state without a record gets its own by a registration, an invalid one by a
      lookup, and none otherwise. A record stays what it is. */
  lemma StepRecords(s: Snapshot, op: Op, ask: Ask, id: StateId)
    requires id != INVALID_STATE
    ensures var t := Step(s, op, ask);
      && (id in s.states ==> id in t.states && t.states[id] == s.states[id])
      && (id !in s.states ==>
            && (HasOwn(t, id) <==> Registers(op, id))
            && (HasInvalid(t, id) <==> LooksUp(s, op, ask, id))
            && (id in t.states ==> HasOwn(t, id) || HasInvalid(t, id)))
    ensures !(Registers(op, id) && LooksUp(s, op, ask, id))
  {
    hide Handle, HandleAll, Restarted;
    match op
    case Submit(event) => HandleRecordsBy(s, event, ask, id);
    case Retry => HandleAllRecordsBy(s.(deferred := []), s.deferred, ask, id);
    case ResetOp =>
      RestartStates(s);
      RestartFires(s);
    case _ =>
  }

  lemma RestartFires(s: Snapshot)
    ensures Restarted(s).fired == s.fired
  {
  }

  // ---- Runs ----

  lemma MetAppend(s: Snapshot, ops: seq<Op>, op: Op, ask: Ask, n: nat, id: StateId)
    ensures RegistersAt(ops + [op], n, id) <==> RegistersAt(ops, n, id) || (n == |ops| && Registers(op, id))
    ensures LooksUpAt(s, ops + [op], ask, n, id)
      <==> LooksUpAt(s, ops, ask, n, id) || (n == |ops| && LooksUp(Run(s, ops, ask), op, ask, id))
  {
    if n <= |ops| {
      assert (ops + [op])[..n] == ops[..n];
      assert ops[..|ops|] == ops;
    }
  }

  lemma FirstAppend(s: Snapshot, ops: seq<Op>, op: Op, ask: Ask, id: StateId)
    ensures RegisteredFirst(s, ops, ask, id) ==> RegisteredFirst(s, ops + [op], ask, id)
    ensures LookedUpFirst(s, ops, ask, id) ==> LookedUpFirst(s, ops + [op], ask, id)
    ensures NeverMet(s, ops, ask, id) ==>
      && (Registers(op, id) ==> RegisteredFirst(s, ops + [op], ask, id))
      && (LooksUp(Run(s, ops, ask), op, ask, id) ==> LookedUpFirst(s, ops + [op], ask, id))
      && (!Registers(op, id) && !LooksUp(Run(s, ops, ask), op, ask, id) ==> NeverMet(s, ops + [op], ask, id))
  {
    hide Registers, LooksUp, RegistersAt, LooksUpAt, Run;
    forall n: nat {
      MetAppend(s, ops, op, ask, n, id);
    }
    BoundedAt(s, ops, ask, id);
    assert Registers(op, id) ==> RegistersAt(ops + [op], |ops|, id);
    assert LooksUp(Run(s, ops, ask), op, ask, id) ==> LooksUpAt(s, ops + [op], ask, |ops|, id);
  }

  lemma BoundedAt(s: Snapshot, ops: seq<Op>, ask: Ask, id: StateId)
    ensures forall n: nat :: RegistersAt(ops, n, id) ==> n < |ops|
    ensures forall n: nat :: LooksUpAt(s, ops, ask, n, id) ==> n < |ops|
  {
  }

  /** At most one of the three is the case. */
  lemma OneOfThree(s: Snapshot, ops: seq<Op>, ask: Ask, id: StateId)
    requires id != INVALID_STATE
    ensures !(RegisteredFirst(s, ops, ask, id) && LookedUpFirst(s, ops, ask, id))
    ensures NeverMet(s, ops, ask, id) ==> !RegisteredFirst(s, ops, ask, id) && !LookedUpFirst(s, ops, ask, id)
  {
    hide RegistersAt, LooksUpAt;
    if RegisteredFirst(s, ops, ask, id) && LookedUpFirst(s, ops, ask, id) {
      var n: nat :| RegistersAt(ops, n, id) && forall m: nat | m < n :: !LooksUpAt(s, ops, ask, m, id);
      var k: nat :| LooksUpAt(s, ops, ask, k, id) && forall m: nat | m < k :: !RegistersAt(ops, m, id);
      assert n == k;
      NotBoth(s, ops, ask, n, id);
    }
  }

  lemma NotBoth(s: Snapshot, ops: seq<Op>, ask: Ask, n: nat, id: StateId)
    requires id != INVALID_STATE
    ensures !(RegistersAt(ops, n, id) && LooksUpAt(s, ops, ask, n, id))
  {
    if n < |ops| {
      StepRecords(Run(s, ops[..n], ask), ops[n], ask, id);
    }
  }

  /** After any run of a new engine, a state has its own record exactly when it was
      registered before anything looked it up, an invalid one exactly when it was
      looked up first, and none exactly when neither has happened. */
  lemma {:induction false} OwnRecordIff(s: Snapshot, ops: seq<Op>, ask: Ask, id: StateId)
    requires Fresh(s) && id != INVALID_STATE
    ensures var t := Run(s, ops, ask);
      && (HasOwn(t, id) <==> RegisteredFirst(s, ops, ask, id))
      && (HasInvalid(t, id) <==> LookedUpFirst(s, ops, ask, id))
      && (id !in t.states <==> NeverMet(s, ops, ask, id))
    decreases |ops|
  {
    hide RegisteredFirst, LookedUpFirst, NeverMet, Registers, LooksUp, Step;
    OneOfThree(s, ops, ask, id);
    RunKeepsStates(s, ops, ask);
    if ops == [] {
      NothingMet(s, ask, id);
    } else {
      var n := |ops| - 1;
      OwnRecordIff(s, ops[..n], ask, id);
      RunKeepsStates(s, ops[..n], ask);
      StepRecords(Run(s, ops[..n], ask), ops[n], ask, id);
      assert ops == ops[..n] + [ops[n]];
      FirstAppend(s, ops[..n], ops[n], ask, id);
    }
  }

  lemma NothingMet(s: Snapshot, ask: Ask, id: StateId)
    ensures NeverMet(s, [], ask, id)
  {
  }

  /** An event whose first rule leads to another state makes that state the active
      one exactly when it was registered before anything looked it up; otherwise the
      engine is left without an active state. */
  lemma TargetActiveIff(s: Snapshot, ops: seq<Op>, event: Event, ask: Ask, r: nat)
    requires Fresh(s)
    requires var t := Run(s, ops, ask);
      && FirstTaker(t.rules, r, t.active, event, t.attempts, ask)
      && !t.rules[r].isInternal && t.rules[r].dst != INVALID_STATE
    ensures var dst, after := Run(s, ops, ask).rules[r].dst, Run(s, ops + [Submit(event)], ask);
      && (after.active == dst <==> RegisteredFirst(s, ops, ask, dst))
      && (after.active != dst ==> after.active == INVALID_STATE && HasInvalid(after, dst))
  {
    hide RegisteredFirst, LookedUpFirst, NeverMet, Takes, FirstRule, Fire, Run;
    var t := Run(s, ops, ask);
    RunKeepsStates(s, ops, ask);
    RunOne(s, ops, Submit(event), ask);
    FirstRuleIsFirst(t, event, ask, 0);
    assert FirstRule(t, event, ask, 0) == Some(r);
    FireStates(t, r);
    OwnRecordIff(s, ops, ask, t.rules[r].dst);
  }

  /** The active state is one that was registered before anything looked it up. */
  lemma ActiveIsRegistered(s: Snapshot, ops: seq<Op>, ask: Ask)
    requires Fresh(s)
    ensures var t := Run(s, ops, ask); t.active != INVALID_STATE ==> RegisteredFirst(s, ops, ask, t.active)
  {
    hide RegisteredFirst;
    RunKeepsStates(s, ops, ask);
    var t := Run(s, ops, ask);
    if t.active != INVALID_STATE {
      OwnRecordIff(s, ops, ask, t.active);
    }
  }

  /** A state that was looked up before it was registered never becomes active
      again, whatever is registered, reset or submitted later. */
  lemma NeverRepaired(s: Snapshot, ops: seq<Op>, more: seq<Op>, ask: Ask, id: StateId)
    requires Fresh(s) && id != INVALID_STATE && LookedUpFirst(s, ops, ask, id)
    ensures Run(Run(s, ops, ask), more, ask).active != id
  {
    hide LookedUpFirst;
    OwnRecordIff(s, ops, ask, id);
    RunKeepsStates(s, ops, ask);
    RunKeepsStates(Run(s, ops, ask), more, ask);
  }
}
