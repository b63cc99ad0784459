/** What an event does to a hierarchical state machine, in terms of the calls that
    built the machine. */
module HierarchicalHistory {
  import opened Options
  import opened Hierarchy
  import opened HierarchicalFsm
  import opened HierarchicalRuns

  // ---- One event ----

  /** The state has a transition for the event, and its guard, if any, passes. */
  predicate Accepts(c: Chart, h: State, event: Event, passes: set<State>) {
    && (h, event) in c.transitions
    && (!c.transitions[(h, event)].guarded || h in passes)
  }

  /** The first state that accepts, from the current one upwards. */
  ghost predicate FirstToAccept(c: Chart, h: State, event: Event, passes: set<State>)
    requires Acyclic(c.parents)
  {
    && h in Path(c.parents, c.current) && Accepts(c, h, event, passes)
    && forall x | x in UpTo(c.parents, c.current, h) :: !Accepts(c, x, event, passes)
  }

  lemma {:induction false} HandlerFound(c: Chart, s: State, h: State, event: Event, passes: set<State>)
    requires Acyclic(c.parents) && h in Path(c.parents, s) && Accepts(c, h, event, passes)
    requires forall x | x in UpTo(c.parents, s, h) :: !Accepts(c, x, event, passes)
    ensures Handler(c, s, event, passes) == Some(h)
    decreases Depth(c.parents)(s)
  {
    if s != h {
      assert s in UpTo(c.parents, s, h);
      HandlerFound(c, c.parents[s], h, event, passes);
    }
  }

  function ExitsOf(states: seq<State>, seen: State): seq<Hook> {
    seq(|states|, k requires 0 <= k < |states| => Hook.OnExit(states[k], seen))
  }

  /** From the last of the states to the first. */
  function EntriesOf(states: seq<State>, seen: State): seq<Hook> {
    seq(|states|, k requires 0 <= k < |states| => Hook.OnEntry(states[|states| - 1 - k], seen))
  }

  lemma ExitsAre(path: seq<State>, registered: set<State>, seen: State)
    ensures ExitHooks(path, registered, seen) == ExitsOf(Registered(path, registered), seen)
  {
    hide ExitHooks, Registered;
    ExitsInOrder(path, registered, seen);
  }

  lemma EntriesAre(path: seq<State>, registered: set<State>, seen: State)
    ensures EntryHooks(Reverse(path), registered, seen) == EntriesOf(Registered(path, registered), seen)
  {
    hide EntryHooks, Registered, Reverse;
    EntriesInOrder(path, registered, seen);
    var states, ran := Registered(path, registered), EntryHooks(Reverse(path), registered, seen);
    forall k | 0 <= k < |ran|
      ensures ran[k] == EntriesOf(states, seen)[k]
    {
      assert ran[|states| - 1 - (|states| - 1 - k)] == Hook.OnEntry(states[|states| - 1 - k], seen);
    }
  }

  /** An event goes to the first state, from the current one upwards, that has a
      transition for it with no guard or a passing one. The machine then is in that
      transition's target, and has run, of the callbacks there are, the exits from
      that state up to the common ancestor, the transition's own action, and the
      entries from there down to the target. If no state accepts the event, nothing
      happens. */
  lemma EventRuns(c: Chart, event: Event, passes: set<State>)
    requires Acyclic(c.parents)
    ensures forall h | FirstToAccept(c, h, event, passes) ::
      var tr, lca := c.transitions[(h, event)], Lca(c.parents, h, c.transitions[(h, event)].target);
      && Process(c, event, passes).current == tr.target
      && Process(c, event, passes).log == c.log
           + ExitsOf(Registered(UpTo(c.parents, h, lca), c.exitActions), c.current)
           + (if tr.action then [Acted(h, tr.target)] else [])
           + EntriesOf(Registered(UpTo(c.parents, tr.target, lca), c.entryActions), tr.target)
    ensures (forall h | h in Path(c.parents, c.current) :: !Accepts(c, h, event, passes)) ==> Process(c, event, passes) == c
    ensures Process(c, event, passes)
         == c.(current := Process(c, event, passes).current, log := Process(c, event, passes).log)
  {
    hide ExitHooks, EntryHooks, Reverse, Registered, ExitsOf, EntriesOf, Lca, UpTo, Path, Handler;
    HandlerIsFirst(c, c.current, event, passes);
    forall h: State | FirstToAccept(c, h, event, passes)
      ensures Handler(c, c.current, event, passes) == Some(h)
    {
      HandlerFound(c, c.current, h, event, passes);
    }
    match Handler(c, c.current, event, passes)
    case None =>
    case Some(h) =>
      var tr := c.transitions[(h, event)];
      var lca := Lca(c.parents, h, tr.target);
      ExitsAre(UpTo(c.parents, h, lca), c.exitActions, c.current);
      EntriesAre(UpTo(c.parents, tr.target, lca), c.entryActions, tr.target);
      assert Accepts(c, h, event, passes);
  }

  // ---- How the machine was built ----

  datatype Op =
    | AddedState(state: State, parent: State)
    | AddedTransition(from: State, event: Event, to: State, action: bool, guarded: bool)
    | AddedEntry(state: State)
    | AddedExit(state: State)
    | Happened(input: Input)
    | WasReset(initial: State)

  /** An event or a reset does not return when a state is above itself. */
  ghost function Perform(c: Chart, op: Op): Chart {
    match op
    case AddedState(state, parent) => c.(parents := c.parents[state := parent])
    case AddedTransition(from, event, to, action, guarded) =>
      c.(transitions := c.transitions[(from, event) := Transition(to, action, guarded)])
    case AddedEntry(state) => c.(entryActions := c.entryActions + {state})
    case AddedExit(state) => c.(exitActions := c.exitActions + {state})
    case Happened(input) => if Acyclic(c.parents) then Process(c, input.event, input.passes) else c
    case WasReset(initial) => if Acyclic(c.parents) then Restart(c, initial) else c
  }

  ghost function Replay(c: Chart, ops: seq<Op>): Chart
    decreases |ops|
  {
    if ops == [] then c else Perform(Replay(c, ops[..|ops| - 1]), ops[|ops| - 1])
  }

  predicate AddsTransition(op: Op, from: State, event: Event) {
    op.AddedTransition? && op.from == from && op.event == event
  }

  predicate AddsState(op: Op, state: State) { op.AddedState? && op.state == state }

  /** The i-th operation is the last that added a transition for these. */
  predicate LastTransition(ops: seq<Op>, i: nat, from: State, event: Event) {
    i < |ops| && AddsTransition(ops[i], from, event) && forall j | i < j < |ops| :: !AddsTransition(ops[j], from, event)
  }

  predicate LastParent(ops: seq<Op>, i: nat, state: State) {
    i < |ops| && AddsState(ops[i], state) && forall j | i < j < |ops| :: !AddsState(ops[j], state)
  }

  lemma LastAppend(ops: seq<Op>, op: Op, i: nat, from: State, event: Event)
    ensures LastTransition(ops + [op], i, from, event) <==>
      if AddsTransition(op, from, event) then i == |ops| else LastTransition(ops, i, from, event)
    ensures LastParent(ops + [op], i, from) <==> if AddsState(op, from) then i == |ops| else LastParent(ops, i, from)
    ensures LastTransition(ops, i, from, event) || LastParent(ops, i, from) ==> i < |ops|
  {
    hide AddsTransition, AddsState;
    var all := ops + [op];
    assert all[|ops|] == op;
    assert forall j | 0 <= j < |ops| :: all[j] == ops[j];
  }

  lemma PerformEffect(c: Chart, op: Op, from: State, event: Event)
    ensures var c' := Perform(c, op);
      && (if AddsTransition(op, from, event)
          then (from, event) in c'.transitions && c'.transitions[(from, event)] == Transition(op.to, op.action, op.guarded)
          else ((from, event) in c'.transitions <==> (from, event) in c.transitions)
               && ((from, event) in c.transitions ==> c'.transitions[(from, event)] == c.transitions[(from, event)]))
      && (if AddsState(op, from) then from in c'.parents && c'.parents[from] == op.parent
          else (from in c'.parents <==> from in c.parents) && (from in c.parents ==> c'.parents[from] == c.parents[from]))
      && (from in c'.entryActions <==> from in c.entryActions || op == AddedEntry(from))
      && (from in c'.exitActions <==> from in c.exitActions || op == AddedExit(from))
  {
    if op.Happened? && Acyclic(c.parents) {
      EventRuns(c, op.input.event, op.input.passes);
    }
  }

  /** A machine without any configuration. */
  predicate Blank(c: Chart) {
    c.parents == map[] && c.transitions == map[] && c.entryActions == {} && c.exitActions == {}
  }

  /** Whatever happened in between: a state has a transition for an event exactly if
      one was added, and it is the one added last; it has a parent exactly if one was
      given, and it is the one given last; and it has an entry or an exit callback
      exactly if that was registered. */
  lemma {:induction false} ConfigurationIsLatest(c: Chart, ops: seq<Op>, from: State, event: Event)
    requires Blank(c)
    ensures var r := Replay(c, ops);
      && ((from, event) in r.transitions <==> exists i: nat :: LastTransition(ops, i, from, event))
      && (forall i: nat | LastTransition(ops, i, from, event) ::
            (from, event) in r.transitions
            && r.transitions[(from, event)] == Transition(ops[i].to, ops[i].action, ops[i].guarded))
      && (from in r.parents <==> exists i: nat :: LastParent(ops, i, from))
      && (forall i: nat | LastParent(ops, i, from) :: from in r.parents && r.parents[from] == ops[i].parent)
      && (from in r.entryActions <==> AddedEntry(from) in ops)
      && (from in r.exitActions <==> AddedExit(from) in ops)
    decreases |ops|
  {
    hide Perform, LastTransition, LastParent, AddsTransition, AddsState;
    if ops == [] {
      NothingAdded(from, event);
    } else {
      var front, op := ops[..|ops| - 1], ops[|ops| - 1];
      ConfigurationIsLatest(c, front, from, event);
      PerformEffect(Replay(c, front), op, from, event);
      assert ops == front + [op];
      forall i: nat {
        LastAppend(front, op, i, from, event);
      }
      assert AddsTransition(op, from, event) ==> LastTransition(ops, |front|, from, event);
      assert AddsState(op, from) ==> LastParent(ops, |front|, from);
    }
  }

  lemma NothingAdded(from: State, event: Event)
    ensures forall i: nat :: !LastTransition([], i, from, event) && !LastParent([], i, from)
  {
  }
}
