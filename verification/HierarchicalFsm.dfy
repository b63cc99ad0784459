/** The hierarchical state machine: events bubble up the hierarchy, and a transition
    leaves and enters states along the paths to the lowest common ancestor. */
module HierarchicalFsm {
  import opened Options
  import opened Hierarchy

  type Event = nat

  datatype Transition = Transition(target: State, action: bool, guarded: bool)

  /** A callback that ran, with the current state it could observe. */
  datatype Hook =
    | OnExit(state: State, seen: State)
    | Acted(state: State, seen: State)
    | OnEntry(state: State, seen: State)

  datatype Chart = Chart(
    parents: Parents,
    transitions: map<(State, Event), Transition>,
    entryActions: set<State>,
    exitActions: set<State>,
    current: State,
    log: seq<Hook>)

  function Reverse(s: seq<State>): seq<State> {
    if s == [] then [] else Reverse(s[1..]) + [s[0]]
  }

  function ExitHooks(path: seq<State>, registered: set<State>, seen: State): seq<Hook> {
    if path == [] then []
    else (if path[0] in registered then [OnExit(path[0], seen)] else []) + ExitHooks(path[1..], registered, seen)
  }

  function EntryHooks(path: seq<State>, registered: set<State>, seen: State): seq<Hook> {
    if path == [] then []
    else (if path[0] in registered then [OnEntry(path[0], seen)] else []) + EntryHooks(path[1..], registered, seen)
  }

  /** A state takes an event when it has a transition for it whose guard, if any,
      passes. `passes` holds the states whose guard for this event says yes. */
  predicate Takes(c: Chart, s: State, event: Event, passes: set<State>) {
    (s, event) in c.transitions && (c.transitions[(s, event)].guarded ==> s in passes)
  }

  /** The first state on the path of s that takes the event. */
  ghost function Handler(c: Chart, s: State, event: Event, passes: set<State>): Option<State>
    requires Acyclic(c.parents)
    decreases Depth(c.parents)(s)
  {
    if Takes(c, s, event, passes) then Some(s)
    else if s in c.parents then Handler(c, c.parents[s], event, passes)
    else None
  }

  /** What the search for a common ancestor answers. */
  ghost function Lca(p: Parents, a: State, b: State): State
    requires Acyclic(p)
  {
    match Meet(p, a, b)
    case Some(c) => c
    case None => a
  }

  /** What a transition from `from` to `to` runs, and where it leaves the machine. */
  ghost function Fire(c: Chart, from: State, to: State, action: bool): Chart
    requires Acyclic(c.parents)
  {
    var lca := Lca(c.parents, from, to);
    c.(current := to,
       log := c.log
              + ExitHooks(UpTo(c.parents, from, lca), c.exitActions, c.current)
              + (if action then [Acted(from, to)] else [])
              + EntryHooks(Reverse(UpTo(c.parents, to, lca)), c.entryActions, to))
  }

  /** One event. */
  ghost function Process(c: Chart, event: Event, passes: set<State>): Chart
    requires Acyclic(c.parents)
  {
    match Handler(c, c.current, event, passes)
    case None => c
    case Some(h) =>
      if (h, event) in c.transitions
      then Fire(c, h, c.transitions[(h, event)].target, c.transitions[(h, event)].action)
      else c
  }

  ghost function Restart(c: Chart, initial: State): Chart
    requires Acyclic(c.parents)
  {
    c.(current := initial,
       log := c.log + EntryHooks(Reverse(Path(c.parents, initial)), c.entryActions, c.current))
  }

  /** The machine itself. */
  class HierarchicalStateMachine {
    var parents: Parents
    var transitions: map<(State, Event), Transition>
    var entryActions: set<State>
    var exitActions: set<State>
    var current: State
    ghost var log: seq<Hook>

    ghost function View(): Chart
      reads this
    {
      Chart(parents, transitions, entryActions, exitActions, current, log)
    }

    /** The current state of a new machine is whatever its memory held. */
    constructor (garbage: State)
      ensures View() == Chart(map[], map[], {}, {}, garbage, [])
      ensures Acyclic(parents)
    {
      parents, transitions, entryActions, exitActions := map[], map[], {}, {};
      current, log := garbage, [];
      new;
      assert Ranks(parents, s => 0);
    }

    /** Keeps the hierarchy free of cycles exactly when the new parent is neither
        the state itself nor below it. */
    method AddState(state: State, parent: State)
      modifies `parents
      ensures View() == old(View()).(parents := old(parents)[state := parent])
      ensures old(Acyclic(parents)) ==> (Acyclic(parents) <==> state !in old(Path(parents, parent)))
    {
      parents := parents[state := parent];
      if old(Acyclic(parents)) {
        AcyclicAfterAddIff(old(parents), state, parent);
      }
    }

    method AddTransition(from: State, event: Event, to: State, action: bool, guarded: bool)
      modifies `transitions
      ensures View() == old(View()).(transitions := old(transitions)[(from, event) := Transition(to, action, guarded)])
    {
      transitions := transitions[(from, event) := Transition(to, action, guarded)];
    }

    method OnEntry(state: State)
      modifies `entryActions
      ensures View() == old(View()).(entryActions := old(entryActions) + {state})
    {
      entryActions := entryActions + {state};
    }

    method OnExit(state: State)
      modifies `exitActions
      ensures View() == old(View()).(exitActions := old(exitActions) + {state})
    {
      exitActions := exitActions + {state};
    }

    /** A proper ancestor: somewhere on the path after the state itself. */
    method IsAncestor(ancestor: State, state: State) returns (found: bool)
      requires Acyclic(parents)
      ensures found <==> ancestor in Path(parents, state)[1..]
    {
      var s := state;
      while s in parents
        invariant ancestor in Path(parents, state)[1..] <==> ancestor in Path(parents, s)[1..]
        decreases Depth(parents)(s)
      {
        assert Path(parents, s)[1..] == Path(parents, parents[s]);
        if parents[s] == ancestor {
          return true;
        }
        s := parents[s];
      }
      return false;
    }

    method IsInState(state: State) returns (r: bool)
      requires Acyclic(parents)
      ensures r <==> state in Path(parents, current)
    {
      if current == state {
        return true;
      }
      r := IsAncestor(state, current);
    }

    method PathToRoot(state: State) returns (path: seq<State>)
      requires Acyclic(parents)
      ensures path == Path(parents, state)
    {
      path := [];
      var s := state;
      while true
        invariant path + Path(parents, s) == Path(parents, state)
        decreases Depth(parents)(s)
      {
        path := path + [s];
        if s !in parents {
          break;
        }
        assert Path(parents, s) == [s] + Path(parents, parents[s]);
        s := parents[s];
      }
    }

    /** Falls back to the first state when the two share no ancestor. */
    method FindLca(a: State, b: State) returns (lca: State)
      requires Acyclic(parents)
      ensures lca == Lca(parents, a, b)
    {
      var pathA := PathToRoot(a);
      var pathB := PathToRoot(b);
      ghost var s := a;
      var i := 0;
      while i < |pathA|
        invariant 0 <= i <= |pathA|
        invariant i < |pathA| ==> pathA[i..] == Path(parents, s) && Meet(parents, a, b) == Meet(parents, s, b)
        invariant i == |pathA| ==> Meet(parents, a, b) == None
      {
        assert pathA[i] == pathA[i..][0] == s;
        if pathA[i] in pathB {
          return pathA[i];
        }
        assert s in parents ==> pathA[i + 1..] == Path(parents, parents[s]);
        s := if s in parents then parents[s] else s;
        i := i + 1;
      }
      return a;
    }

    /** The states from s upwards, before lca; all the way up if lca is not there. */
    method Climb(s: State, lca: State) returns (path: seq<State>)
      requires Acyclic(parents)
      ensures path == UpTo(parents, s, lca)
    {
      path := [];
      var t: State := s;
      while t != lca
        invariant path + UpTo(parents, t, lca) == UpTo(parents, s, lca)
        decreases t != lca, Depth(parents)(t)
      {
        path := path + [t];
        t := if t in parents then parents[t] else lca;
      }
    }

    method RunExits(path: seq<State>)
      modifies `log
      ensures View() == old(View()).(log := old(log) + ExitHooks(path, exitActions, current))
    {
      hide ExitHooks;
      NoExits(path[|path|..], exitActions, current);
      assert path[0..] == path;
      var i := 0;
      while i < |path|
        invariant 0 <= i <= |path|
        invariant log + ExitHooks(path[i..], exitActions, current) == old(log) + ExitHooks(path, exitActions, current)
      {
        ExitHead(path, i, exitActions, current);
        if path[i] in exitActions {
          log := log + [Hook.OnExit(path[i], current)];
        }
        i := i + 1;
      }
    }

    /** Goes through the path backwards: the state farthest up is entered first. */
    method RunEntries(path: seq<State>)
      modifies `log
      ensures View() == old(View()).(log := old(log) + EntryHooks(Reverse(path), entryActions, current))
    {
      var i := |path|;
      assert path[..i] == path;
      while i > 0
        invariant 0 <= i <= |path|
        invariant log + EntryHooks(Reverse(path[..i]), entryActions, current)
               == old(log) + EntryHooks(Reverse(path), entryActions, current)
      {
        i := i - 1;
        ReverseEnd(path[..i + 1]);
        assert path[..i + 1][..i] == path[..i];
        if path[i] in entryActions {
          log := log + [Hook.OnEntry(path[i], current)];
        }
      }
    }

    method ExecuteTransition(from: State, to: State, action: bool) returns (r: bool)
      requires Acyclic(parents)
      modifies `current, `log
      ensures r && View() == Fire(old(View()), from, to, action)
    {
      hide Meet, UpTo, ExitHooks, EntryHooks, Reverse, Lca;
      var lca := FindLca(from, to);
      var exitPath := Climb(from, lca);
      RunExits(exitPath);
      current := to;
      if action {
        log := log + [Acted(from, current)];
      }
      var entryPath := Climb(to, lca);
      RunEntries(entryPath);
      return true;
    }

    method ProcessEvent(event: Event, passes: set<State>) returns (handled: bool)
      requires Acyclic(parents)
      modifies `current, `log
      ensures View() == Process(old(View()), event, passes)
      ensures handled <==> Handler(old(View()), old(current), event, passes).Some?
    {
      var s := current;
      while true
        invariant unchanged(this)
        invariant Handler(View(), current, event, passes) == Handler(View(), s, event, passes)
        decreases Depth(parents)(s)
      {
        if (s, event) in transitions {
          var tr := transitions[(s, event)];
          if !tr.guarded || s in passes {
            handled := ExecuteTransition(s, tr.target, tr.action);
            return;
          }
        }
        if s !in parents {
          break;
        }
        s := parents[s];
      }
      return false;
    }

    method Reset(initial: State)
      requires Acyclic(parents)
      modifies `current, `log
      ensures View() == Restart(old(View()), initial)
    {
      var path := PathToRoot(initial);
      RunEntries(path);
      current := initial;
    }
  }

  lemma ExitHead(path: seq<State>, i: nat, registered: set<State>, seen: State)
    requires i < |path|
    ensures ExitHooks(path[i..], registered, seen)
         == (if path[i] in registered then [OnExit(path[i], seen)] else []) + ExitHooks(path[i + 1..], registered, seen)
  {
    assert path[i..][1..] == path[i + 1..];
  }

  lemma NoExits(path: seq<State>, registered: set<State>, seen: State)
    requires path == []
    ensures ExitHooks(path, registered, seen) == []
  {
  }

  lemma {:induction false} ReverseEnd(s: seq<State>)
    requires s != []
    ensures Reverse(s) == [s[|s| - 1]] + Reverse(s[..|s| - 1])
  {
    if |s| > 1 {
      ReverseEnd(s[1..]);
      assert s[..|s| - 1][1..] == s[1..][..|s| - 2];
    }
  }
}
