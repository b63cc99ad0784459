/** What a whole run of the hierarchical state machine enters and leaves. */
module HierarchicalRuns {
  import opened Options
  import opened Hierarchy
  import opened HierarchicalFsm

  // ---- One transition ----

  lemma SplitIsDisjoint(p: Parents, s: State, x: State, y: State)
    requires Acyclic(p) && x in Path(p, s) && y in UpTo(p, s, x)
    ensures y in Path(p, s) && y !in Path(p, x)
  {
    PathSplits(p, s, x);
    PathHasNoRepeats(p, s, y);
    assert multiset(Path(p, s)) == multiset(UpTo(p, s, x)) + multiset(Path(p, x));
  }

  /** When handler and target share a root, what is left and what is entered are
      disjoint, and complete the path of the meeting point to the old and to the
      new path. */
  lemma PathDecomposition(p: Parents, from: State, to: State)
    requires Acyclic(p) && Root(p, from) == Root(p, to)
    ensures var lca := Lca(p, from, to);
      && UpTo(p, from, lca) + Path(p, lca) == Path(p, from)
      && UpTo(p, to, lca) + Path(p, lca) == Path(p, to)
      && (forall x | x in UpTo(p, from, lca) :: x !in UpTo(p, to, lca))
  {
    LowestCommonAncestor(p, from, to);
    MeetIsCommon(p, from, to);
    var lca := Lca(p, from, to);
    PathSplits(p, from, lca);
    PathSplits(p, to, lca);
    forall x | x in UpTo(p, from, lca)
      ensures x !in UpTo(p, to, lca)
    {
      SplitIsDisjoint(p, from, lca, x);
      if x in UpTo(p, to, lca) {
        SplitIsDisjoint(p, to, lca, x);
      }
    }
  }

  /** Without a common root nothing is left, and the whole path of the target is
      entered. */
  lemma UnrelatedTransition(p: Parents, from: State, to: State)
    requires Acyclic(p) && Root(p, from) != Root(p, to)
    ensures var lca := Lca(p, from, to);
      UpTo(p, from, lca) == [] && UpTo(p, to, lca) == Path(p, to)
  {
    LowestCommonAncestor(p, from, to);
    if from in Path(p, to) {
      RootShared(p, to, from);
    }
    UpToMissing(p, to, from);
  }

  /** Which state handles an event: it takes the event, and no state before it on
      the path of the current one does. */
  lemma {:induction false} HandlerIsFirst(c: Chart, s: State, event: Event, passes: set<State>)
    requires Acyclic(c.parents)
    ensures match Handler(c, s, event, passes)
      case Some(h) =>
        && h in Path(c.parents, s) && Takes(c, h, event, passes)
        && (forall x | x in UpTo(c.parents, s, h) :: !Takes(c, x, event, passes))
      case None => forall x | x in Path(c.parents, s) :: !Takes(c, x, event, passes)
    decreases Depth(c.parents)(s)
  {
    if !Takes(c, s, event, passes) && s in c.parents {
      HandlerIsFirst(c, c.parents[s], event, passes);
      if Handler(c, s, event, passes).Some? {
        var h := Handler(c, s, event, passes).value;
        NotAboveItself(c.parents, s);
        assert UpTo(c.parents, s, h) == [s] + UpTo(c.parents, c.parents[s], h);
      }
    }
  }

  /** The states of a path that have a callback, in order. */
  function Registered(path: seq<State>, registered: set<State>): seq<State> {
    if path == [] then []
    else (if path[0] in registered then [path[0]] else []) + Registered(path[1..], registered)
  }

  lemma {:induction false} ExitsInOrder(path: seq<State>, registered: set<State>, seen: State)
    ensures var states := Registered(path, registered);
      && |ExitHooks(path, registered, seen)| == |states|
      && forall k | 0 <= k < |states| :: ExitHooks(path, registered, seen)[k] == OnExit(states[k], seen)
  {
    if path != [] {
      ExitsInOrder(path[1..], registered, seen);
    }
  }

  lemma {:induction false} EntryHooksAppend(a: seq<State>, s: State, registered: set<State>, seen: State)
    ensures EntryHooks(a + [s], registered, seen)
         == EntryHooks(a, registered, seen) + if s in registered then [OnEntry(s, seen)] else []
  {
    if a == [] {
      assert a + [s] == [s];
      assert EntryHooks([s], registered, seen) == (if s in registered then [OnEntry(s, seen)] else []) + EntryHooks([], registered, seen);
    } else {
      EntryHooksAppend(a[1..], s, registered, seen);
      assert (a + [s])[1..] == a[1..] + [s];
    }
  }

  lemma NothingRegistered(path: seq<State>, registered: set<State>, seen: State)
    requires path == []
    ensures Registered(path, registered) == [] && EntryHooks(Reverse(path), registered, seen) == []
  {
  }

  lemma RegisteredHead(path: seq<State>, registered: set<State>)
    requires path != []
    ensures Registered(path, registered)
         == (if path[0] in registered then [path[0]] else []) + Registered(path[1..], registered)
    ensures Reverse(path) == Reverse(path[1..]) + [path[0]]
  {
  }

  /** Entering a path backwards runs the callbacks of its states, last state first. */
  lemma {:induction false} EntriesInOrder(path: seq<State>, registered: set<State>, seen: State)
    ensures var states := Registered(path, registered);
      var ran := EntryHooks(Reverse(path), registered, seen);
      && |ran| == |states|
      && forall k | 0 <= k < |states| :: ran[|states| - 1 - k] == OnEntry(states[k], seen)
  {
    hide Registered, EntryHooks, Reverse;
    if path == [] {
      NothingRegistered(path, registered, seen);
    } else {
      EntriesInOrder(path[1..], registered, seen);
      EntryHooksAppend(Reverse(path[1..]), path[0], registered, seen);
      RegisteredHead(path, registered);
      EntriesStep(Registered(path[1..], registered), EntryHooks(Reverse(path[1..]), registered, seen), path[0], registered, seen);
    }
  }

  lemma EntriesStep(rest: seq<State>, before: seq<Hook>, s: State, registered: set<State>, seen: State)
    requires |before| == |rest| && forall k | 0 <= k < |rest| :: before[|rest| - 1 - k] == OnEntry(rest[k], seen)
    ensures var states := (if s in registered then [s] else []) + rest;
      var ran := before + if s in registered then [OnEntry(s, seen)] else [];
      |ran| == |states| && forall k | 0 <= k < |states| :: ran[|states| - 1 - k] == OnEntry(states[k], seen)
  {
    if s in registered {
      var states, ran := [s] + rest, before + [OnEntry(s, seen)];
      forall k | 0 <= k < |states|
        ensures ran[|states| - 1 - k] == OnEntry(states[k], seen)
      {
        if k > 0 {
          assert ran[|states| - 1 - k] == before[|rest| - 1 - (k - 1)];
        }
      }
    }
  }

  /** A transition runs the callbacks there are: of the states it leaves, from the
      handler upwards, with the old state still current; then the action; then of
      the states it enters, downwards to the target, which is current by then. */
  lemma HooksInOrder(c: Chart, from: State, to: State, action: bool)
    requires Acyclic(c.parents)
    ensures var lca := Lca(c.parents, from, to);
      var left := Registered(UpTo(c.parents, from, lca), c.exitActions);
      var entered := Registered(UpTo(c.parents, to, lca), c.entryActions);
      var ran := Fire(c, from, to, action).log;
      var n := |c.log| + |left|;
      && |ran| == n + (if action then 1 else 0) + |entered|
      && ran[..|c.log|] == c.log
      && (forall k | 0 <= k < |left| :: ran[|c.log| + k] == OnExit(left[k], c.current))
      && (action ==> ran[n] == Acted(from, to))
      && (forall k | 0 <= k < |entered| :: ran[|ran| - 1 - k] == OnEntry(entered[k], to))
  {
    hide ExitHooks, EntryHooks, Meet, Path, UpTo, Registered, Reverse;
    var p, lca := c.parents, Lca(c.parents, from, to);
    ExitsInOrder(UpTo(p, from, lca), c.exitActions, c.current);
    EntriesInOrder(UpTo(p, to, lca), c.entryActions, to);
  }

  /** A reset runs the entry callbacks there are, downwards from the root to the
      initial state, while the old state is still current, and leaves nothing. */
  lemma ResetInOrder(c: Chart, initial: State)
    requires Acyclic(c.parents)
    ensures var entered, ran := Registered(Path(c.parents, initial), c.entryActions), Restart(c, initial).log;
      && Restart(c, initial) == c.(current := initial, log := ran)
      && |ran| == |c.log| + |entered| && ran[..|c.log|] == c.log
      && (forall k | 0 <= k < |entered| :: ran[|ran| - 1 - k] == OnEntry(entered[k], c.current))
  {
    hide EntryHooks, Path, Registered, Reverse;
    EntriesInOrder(Path(c.parents, initial), c.entryActions, c.current);
  }

  lemma {:induction false} RegisteredIn(path: seq<State>, registered: set<State>, x: State)
    ensures x in Registered(path, registered) <==> x in path && x in registered
  {
    if path != [] {
      RegisteredIn(path[1..], registered, x);
      assert path == [path[0]] + path[1..];
    }
  }

  // ---- Counting entries and exits ----

  function Times(path: seq<State>, x: State): int { multiset(path)[x] }

  /** How often x was entered, less how often it was left. */
  function Net(log: seq<Hook>, x: State): int {
    if log == [] then 0
    else
      (match log[0]
       case OnEntry(s, _) => if s == x then 1 else 0
       case OnExit(s, _) => if s == x then -1 else 0
       case Acted(_, _) => 0) + Net(log[1..], x)
  }

  lemma {:induction false} NetConcat(a: seq<Hook>, b: seq<Hook>, x: State)
    ensures Net(a + b, x) == Net(a, x) + Net(b, x)
  {
    if a == [] {
      assert a + b == b;
    } else {
      NetConcat(a[1..], b, x);
      assert (a + b)[1..] == a[1..] + b;
    }
  }

  lemma {:induction false} NetOfExits(path: seq<State>, registered: set<State>, seen: State, x: State)
    requires x in registered
    ensures Net(ExitHooks(path, registered, seen), x) == -Times(path, x)
  {
    if path != [] {
      NetOfExits(path[1..], registered, seen, x);
      assert path == [path[0]] + path[1..];
      var first := if path[0] in registered then [OnExit(path[0], seen)] else [];
      NetConcat(first, ExitHooks(path[1..], registered, seen), x);
    }
  }

  lemma {:induction false} NetOfEntries(path: seq<State>, registered: set<State>, seen: State, x: State)
    requires x in registered
    ensures Net(EntryHooks(path, registered, seen), x) == Times(path, x)
  {
    if path != [] {
      NetOfEntries(path[1..], registered, seen, x);
      assert path == [path[0]] + path[1..];
      var first := if path[0] in registered then [OnEntry(path[0], seen)] else [];
      NetConcat(first, EntryHooks(path[1..], registered, seen), x);
    }
  }

  lemma {:induction false} ReverseKeepsElements(s: seq<State>)
    ensures multiset(Reverse(s)) == multiset(s)
  {
    if s != [] {
      ReverseKeepsElements(s[1..]);
      assert s == [s[0]] + s[1..];
    }
  }

  /** States whose entries and exits are both observed. */
  predicate Hooked(c: Chart, x: State) { x in c.entryActions && x in c.exitActions }

  lemma NetOfFire(c: Chart, from: State, to: State, action: bool, x: State)
    requires Acyclic(c.parents) && Hooked(c, x)
    ensures var lca := Lca(c.parents, from, to);
      Net(Fire(c, from, to, action).log, x) == Net(c.log, x)
        - Times(UpTo(c.parents, from, lca), x) + Times(UpTo(c.parents, to, lca), x)
  {
    var lca := Lca(c.parents, from, to);
    var left, entered := UpTo(c.parents, from, lca), UpTo(c.parents, to, lca);
    var exits := ExitHooks(left, c.exitActions, c.current);
    var acts := if action then [Acted(from, to)] else [];
    var entries := EntryHooks(Reverse(entered), c.entryActions, to);
    NetConcat(c.log + exits + acts, entries, x);
    NetConcat(c.log + exits, acts, x);
    NetConcat(c.log, exits, x);
    NetOfExits(left, c.exitActions, c.current, x);
    NetOfEntries(Reverse(entered), c.entryActions, to, x);
    ReverseKeepsElements(entered);
  }

  /** What a transition fails to leave: the states below the handler when the event
      bubbled up to it, and the whole old path when the target has another root. */
  ghost function Leaked(c: Chart, h: State, to: State): seq<State>
    requires Acyclic(c.parents)
  {
    if Root(c.parents, h) == Root(c.parents, to) then UpTo(c.parents, c.current, h)
    else Path(c.parents, c.current)
  }

  /** Nothing leaks exactly when the current state handles the event itself and the
      target is in the same tree. */
  lemma LeaksNothingIff(c: Chart, h: State, to: State)
    requires Acyclic(c.parents)
    ensures Leaked(c, h, to) == [] <==> h == c.current && Root(c.parents, h) == Root(c.parents, to)
  {
  }

  lemma FireBalance(c: Chart, h: State, to: State, action: bool, x: State)
    requires Acyclic(c.parents) && Hooked(c, x) && h in Path(c.parents, c.current)
    ensures Net(Fire(c, h, to, action).log, x) - Net(c.log, x)
         == Times(Path(c.parents, to), x) - Times(Path(c.parents, c.current), x) + Times(Leaked(c, h, to), x)
  {
    var p := c.parents;
    var lca := Lca(p, h, to);
    NetOfFire(c, h, to, action, x);
    PathSplits(p, c.current, h);
    if Root(p, h) == Root(p, to) {
      PathDecomposition(p, h, to);
      assert multiset(Path(p, h)) == multiset(UpTo(p, h, lca)) + multiset(Path(p, lca));
      assert multiset(Path(p, to)) == multiset(UpTo(p, to, lca)) + multiset(Path(p, lca));
      assert multiset(Path(p, c.current)) == multiset(UpTo(p, c.current, h)) + multiset(Path(p, h));
    } else {
      UnrelatedTransition(p, h, to);
    }
  }

  // ---- Whole runs ----

  datatype Input = Input(event: Event, passes: set<State>)

  ghost function Run(c: Chart, inputs: seq<Input>): (r: Chart)
    requires Acyclic(c.parents)
    ensures r.parents == c.parents && r.entryActions == c.entryActions && r.exitActions == c.exitActions
    decreases |inputs|
  {
    if inputs == [] then c else Run(Process(c, inputs[0].event, inputs[0].passes), inputs[1..])
  }

  ghost function StepLeak(c: Chart, input: Input): multiset<State>
    requires Acyclic(c.parents)
  {
    match Handler(c, c.current, input.event, input.passes)
    case None => multiset{}
    case Some(h) =>
      if (h, input.event) in c.transitions then multiset(Leaked(c, h, c.transitions[(h, input.event)].target))
      else multiset{}
  }

  /** Everything a run fails to leave, with how often. */
  ghost function Leaks(c: Chart, inputs: seq<Input>): multiset<State>
    requires Acyclic(c.parents)
    decreases |inputs|
  {
    if inputs == [] then multiset{}
    else StepLeak(c, inputs[0]) + Leaks(Process(c, inputs[0].event, inputs[0].passes), inputs[1..])
  }

  lemma ProcessBalance(c: Chart, input: Input, x: State)
    requires Acyclic(c.parents) && Hooked(c, x)
    ensures var c' := Process(c, input.event, input.passes);
      Net(c'.log, x) - Net(c.log, x)
        == Times(Path(c.parents, c'.current), x) - Times(Path(c.parents, c.current), x) + (StepLeak(c, input)[x] as int)
  {
    HandlerIsFirst(c, c.current, input.event, input.passes);
    match Handler(c, c.current, input.event, input.passes)
    case None =>
    case Some(h) =>
      var tr := c.transitions[(h, input.event)];
      FireBalance(c, h, tr.target, tr.action, x);
  }

  lemma {:induction false} RunChanges(c: Chart, inputs: seq<Input>, x: State)
    requires Acyclic(c.parents) && Hooked(c, x)
    ensures var r := Run(c, inputs);
      Net(r.log, x) - Net(c.log, x)
        == Times(Path(c.parents, r.current), x) - Times(Path(c.parents, c.current), x) + (Leaks(c, inputs)[x] as int)
    decreases |inputs|
  {
    if inputs != [] {
      ProcessBalance(c, inputs[0], x);
      RunChanges(Process(c, inputs[0].event, inputs[0].passes), inputs[1..], x);
    }
  }

  lemma NetOfRestart(c: Chart, initial: State, x: State)
    requires Acyclic(c.parents) && Hooked(c, x)
    ensures Net(Restart(c, initial).log, x) == Net(c.log, x) + Times(Path(c.parents, initial), x)
  {
    var path := Path(c.parents, initial);
    NetConcat(c.log, EntryHooks(Reverse(path), c.entryActions, c.current), x);
    NetOfEntries(Reverse(path), c.entryActions, c.current, x);
    ReverseKeepsElements(path);
  }

  /** After any run from a reset, a state is entered and not yet left as often as
      it is on the path of the current state, plus once for each time it leaked. */
  lemma RunBalance(c: Chart, initial: State, inputs: seq<Input>, x: State)
    requires Acyclic(c.parents) && c.log == [] && Hooked(c, x)
    ensures var start := Restart(c, initial);
      var r := Run(start, inputs);
      Net(r.log, x) == (if x in Path(c.parents, r.current) then 1 else 0) + (Leaks(start, inputs)[x] as int)
  {
    var start := Restart(c, initial);
    var r := Run(start, inputs);
    NetOfRestart(c, initial, x);
    RunChanges(start, inputs, x);
    PathHasNoRepeats(c.parents, r.current, x);
  }

  /** An event that is either ignored or handled by the current state itself with a
      target in the same tree. */
  ghost predicate Direct(c: Chart, input: Input)
    requires Acyclic(c.parents)
  {
    match Handler(c, c.current, input.event, input.passes)
    case None => true
    case Some(h) =>
      && h == c.current
      && ((h, input.event) in c.transitions ==>
            Root(c.parents, h) == Root(c.parents, c.transitions[(h, input.event)].target))
  }

  ghost predicate AllDirect(c: Chart, inputs: seq<Input>)
    requires Acyclic(c.parents)
    decreases |inputs|
  {
    inputs == []
    || (Direct(c, inputs[0]) && AllDirect(Process(c, inputs[0].event, inputs[0].passes), inputs[1..]))
  }

  lemma {:induction false} LeakFreeIff(c: Chart, inputs: seq<Input>)
    requires Acyclic(c.parents)
    ensures Leaks(c, inputs) == multiset{} <==> AllDirect(c, inputs)
    decreases |inputs|
  {
    if inputs != [] {
      var c' := Process(c, inputs[0].event, inputs[0].passes);
      LeakFreeIff(c', inputs[1..]);
      StepLeakFreeIff(c, inputs[0]);
      if Leaks(c, inputs) == multiset{} {
        EmptySum(StepLeak(c, inputs[0]), Leaks(c', inputs[1..]));
      }
    }
  }

  lemma EmptySum(a: multiset<State>, b: multiset<State>)
    requires a + b == multiset{}
    ensures a == multiset{} && b == multiset{}
  {
    forall x ensures a[x] == 0 && b[x] == 0 {
      assert (a + b)[x] == 0;
    }
  }

  lemma StepLeakFreeIff(c: Chart, input: Input)
    requires Acyclic(c.parents)
    ensures StepLeak(c, input) == multiset{} <==> Direct(c, input)
  {
    HandlerIsFirst(c, c.current, input.event, input.passes);
    match Handler(c, c.current, input.event, input.passes)
    case None =>
    case Some(h) =>
      var leaked := Leaked(c, h, c.transitions[(h, input.event)].target);
      LeaksNothingIff(c, h, c.transitions[(h, input.event)].target);
      if leaked != [] {
        assert leaked[0] in multiset(leaked);
      }
  }

  /** Every state the machine can ever be in has both callbacks registered. */
  ghost predicate FullyHooked(c: Chart) {
    && (forall s | s in c.parents :: Hooked(c, s) && Hooked(c, c.parents[s]))
    && (forall k | k in c.transitions :: Hooked(c, c.transitions[k].target))
  }

  lemma {:induction false} PathIsHooked(c: Chart, s: State, x: State)
    requires Acyclic(c.parents) && FullyHooked(c) && Hooked(c, s) && x in Path(c.parents, s)
    ensures Hooked(c, x)
    decreases Depth(c.parents)(s)
  {
    if x != s {
      PathIsHooked(c, c.parents[s], x);
    }
  }

  lemma StepKeepsHooked(c: Chart, input: Input)
    requires Acyclic(c.parents) && FullyHooked(c) && Hooked(c, c.current)
    ensures var c' := Process(c, input.event, input.passes);
      && c'.parents == c.parents && c'.entryActions == c.entryActions && c'.exitActions == c.exitActions
      && FullyHooked(c') && Hooked(c', c'.current)
  {
  }

  lemma StepLeakIsHooked(c: Chart, input: Input, x: State)
    requires Acyclic(c.parents) && FullyHooked(c) && Hooked(c, c.current) && x in StepLeak(c, input)
    ensures Hooked(c, x)
  {
    hide FullyHooked, Hooked;
    var h := Handler(c, c.current, input.event, input.passes).value;
    HandlerIsFirst(c, c.current, input.event, input.passes);
    PathSplits(c.parents, c.current, h);
    PathIsHooked(c, c.current, x);
  }

  lemma {:induction false} LeaksAreHooked(c: Chart, inputs: seq<Input>, x: State)
    requires Acyclic(c.parents) && FullyHooked(c) && Hooked(c, c.current) && x in Leaks(c, inputs)
    ensures Hooked(c, x)
    decreases |inputs|
  {
    hide FullyHooked, Process, StepLeak;
    if x in StepLeak(c, inputs[0]) {
      StepLeakIsHooked(c, inputs[0], x);
    } else {
      StepKeepsHooked(c, inputs[0]);
      LeaksAreHooked(Process(c, inputs[0].event, inputs[0].passes), inputs[1..], x);
    }
  }

  lemma RestartKeepsHooked(c: Chart, initial: State)
    requires Acyclic(c.parents) && FullyHooked(c) && Hooked(c, initial)
    ensures FullyHooked(Restart(c, initial)) && Hooked(Restart(c, initial), initial)
  {
  }

  /** With every state's callbacks registered: the states entered and not yet left
      are exactly the path of the current state if and only if every event of the
      run was handled by the current state itself, within its own tree. */
  lemma BalancedIffDirect(c: Chart, initial: State, inputs: seq<Input>)
    requires Acyclic(c.parents) && c.log == [] && FullyHooked(c) && Hooked(c, initial)
    ensures var start := Restart(c, initial);
      var r := Run(start, inputs);
      (forall x | Hooked(c, x) :: Net(r.log, x) == if x in Path(c.parents, r.current) then 1 else 0)
      <==> AllDirect(start, inputs)
  {
    hide Net, Leaks, AllDirect, FullyHooked, Path, EntryHooks, Process;
    var start := Restart(c, initial);
    var r := Run(start, inputs);
    LeakFreeIff(start, inputs);
    forall x | Hooked(c, x)
      ensures Net(r.log, x) == (if x in Path(c.parents, r.current) then 1 else 0) + Leaks(start, inputs)[x]
    {
      RunBalance(c, initial, inputs, x);
    }
    if Leaks(start, inputs) != multiset{} {
      var x :| x in Leaks(start, inputs);
      RestartKeepsHooked(c, initial);
      LeaksAreHooked(start, inputs, x);
    }
  }

  /** 1 and 2 are children of 0, the machine is in 1, and 0 sends event 7 to 2. */
  function TwoChildren(): Chart {
    Chart(map[1 := 0, 2 := 0], map[(0, 7) := Transition(2, false, false)], {0, 1, 2}, {0, 1, 2}, 1, [])
  }

  lemma TwoChildrenPaths()
    ensures var p := TwoChildren().parents;
      && Acyclic(p) && Path(p, 0) == [0] && Path(p, 2) == [2, 0]
      && Lca(p, 0, 2) == 0 && UpTo(p, 0, 0) == [] && UpTo(p, 2, 0) == [2]
  {
    var p := TwoChildren().parents;
    assert Ranks(p, s => s);
    assert Path(p, 0) == [0];
    assert Path(p, 2) == [2] + Path(p, 0);
    assert UpTo(p, 2, 0) == [2] + UpTo(p, 0, 0);
  }

  lemma TwoChildrenHandler()
    ensures Acyclic(TwoChildren().parents) && Handler(TwoChildren(), 1, 7, {}) == Some(0)
  {
    var c := TwoChildren();
    assert Ranks(c.parents, s => s);
    assert Takes(c, 0, 7, {}) && !Takes(c, 1, 7, {});
    assert Handler(c, 0, 7, {}) == Some(0);
  }

  /** The smallest bubbled event: state 2 is entered but 1 is never left. */
  lemma BubbledEventDoesNotLeave()
    ensures var c := TwoChildren();
      && Acyclic(c.parents) && FullyHooked(c) && c.current == 1
      && Process(c, 7, {}).current == 2 && Process(c, 7, {}).log == [OnEntry(2, 2)]
  {
    hide Handler, Lca, UpTo, Path, Acyclic, Meet;
    var c := TwoChildren();
    TwoChildrenPaths();
    TwoChildrenHandler();
    assert Reverse([2]) == [2];
    assert EntryHooks([2], c.entryActions, 2) == [OnEntry(2, 2)] + EntryHooks([], c.entryActions, 2);
  }
}
