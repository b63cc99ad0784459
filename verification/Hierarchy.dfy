/** Paths in a forest of states given by a parent map: what the hierarchical state
    machine asks of its hierarchy. */
module Hierarchy {
  import opened Options

  type State = nat

  type Parents = map<State, State>

  ghost predicate Ranks(p: Parents, depth: State -> nat) {
    forall s | s in p :: depth(p[s]) < depth(s)
  }

  /** No state is above itself. */
  ghost predicate Acyclic(p: Parents) {
    exists depth: State -> nat :: Ranks(p, depth)
  }

  ghost function Depth(p: Parents): (depth: State -> nat)
    requires Acyclic(p)
    ensures Ranks(p, depth)
  {
    var depth: State -> nat :| Ranks(p, depth);
    depth
  }

  /** A state, its parent, and so on up to a root. */
  ghost function Path(p: Parents, s: State): (path: seq<State>)
    requires Acyclic(p)
    ensures path != [] && path[0] == s
    decreases Depth(p)(s)
  {
    if s in p then [s] + Path(p, p[s]) else [s]
  }

  ghost function Root(p: Parents, s: State): State
    requires Acyclic(p)
  {
    Path(p, s)[|Path(p, s)| - 1]
  }

  /** The states from s upwards, before `stop`. */
  ghost function UpTo(p: Parents, s: State, stop: State): seq<State>
    requires Acyclic(p)
    decreases Depth(p)(s)
  {
    if s == stop then []
    else if s in p then [s] + UpTo(p, p[s], stop)
    else [s]
  }

  /** The first state on a's path that is also on b's. */
  ghost function Meet(p: Parents, a: State, b: State): Option<State>
    requires Acyclic(p)
    decreases Depth(p)(a)
  {
    if a in Path(p, b) then Some(a)
    else if a in p then Meet(p, p[a], b)
    else None
  }

  // ---- Paths ----

  lemma {:induction false} PathDescends(p: Parents, s: State, x: State)
    requires Acyclic(p) && x in Path(p, s)
    ensures Depth(p)(x) <= Depth(p)(s)
    ensures x != s ==> Depth(p)(x) < Depth(p)(s)
    decreases Depth(p)(s)
  {
    if x != s {
      PathDescends(p, p[s], x);
    }
  }

  /** No state is on its own parent's path. */
  lemma NotAboveItself(p: Parents, s: State)
    requires Acyclic(p) && s in p
    ensures s !in Path(p, p[s])
  {
    if s in Path(p, p[s]) {
      PathDescends(p, p[s], s);
    }
  }

  lemma {:induction false} PathHasNoRepeats(p: Parents, s: State, x: State)
    requires Acyclic(p)
    ensures multiset(Path(p, s))[x] == if x in Path(p, s) then 1 else 0
    decreases Depth(p)(s)
  {
    if s in p {
      PathHasNoRepeats(p, p[s], x);
      NotAboveItself(p, s);
    }
  }

  /** A path splits at every state on it. */
  lemma {:induction false} PathSplits(p: Parents, s: State, x: State)
    requires Acyclic(p) && x in Path(p, s)
    ensures UpTo(p, s, x) + Path(p, x) == Path(p, s)
    decreases Depth(p)(s)
  {
    if x != s {
      PathSplits(p, p[s], x);
      assert [s] + (UpTo(p, p[s], x) + Path(p, x)) == [s] + UpTo(p, p[s], x) + Path(p, x);
    }
  }

  /** Going up to a state that is not above runs all the way to the root. */
  lemma {:induction false} UpToMissing(p: Parents, s: State, stop: State)
    requires Acyclic(p) && stop !in Path(p, s)
    ensures UpTo(p, s, stop) == Path(p, s)
    decreases Depth(p)(s)
  {
    if s in p {
      UpToMissing(p, p[s], stop);
    }
  }

  lemma RootOnPath(p: Parents, s: State)
    requires Acyclic(p)
    ensures Root(p, s) in Path(p, s)
  {
  }

  lemma RootShared(p: Parents, s: State, x: State)
    requires Acyclic(p) && x in Path(p, s)
    ensures Root(p, x) == Root(p, s)
  {
    PathSplits(p, s, x);
  }

  // ---- The lowest common ancestor ----

  lemma {:induction false} MeetIsCommon(p: Parents, a: State, b: State)
    requires Acyclic(p) && Meet(p, a, b).Some?
    ensures Meet(p, a, b).value in Path(p, a) && Meet(p, a, b).value in Path(p, b)
    decreases Depth(p)(a)
  {
    if a !in Path(p, b) {
      MeetIsCommon(p, p[a], b);
    }
  }

  lemma {:induction false} MeetIsLowest(p: Parents, a: State, b: State, x: State)
    requires Acyclic(p) && x in Path(p, a) && x in Path(p, b)
    ensures Meet(p, a, b).Some? && x in Path(p, Meet(p, a, b).value)
    decreases Depth(p)(a)
  {
    if a !in Path(p, b) {
      MeetIsLowest(p, p[a], b, x);
    }
  }

  /** Two states have a common ancestor exactly when they share their root; then
      the meeting point is the deepest one: it is on both paths, and every common
      ancestor is on its own path. */
  lemma LowestCommonAncestor(p: Parents, a: State, b: State)
    requires Acyclic(p)
    ensures Meet(p, a, b).Some? <==> Root(p, a) == Root(p, b)
    ensures Meet(p, a, b).Some? ==>
      forall x :: x in Path(p, a) && x in Path(p, b) <==> x in Path(p, Meet(p, a, b).value)
  {
    RootOnPath(p, a);
    RootOnPath(p, b);
    if Root(p, a) == Root(p, b) {
      MeetIsLowest(p, a, b, Root(p, a));
    }
    if Meet(p, a, b).Some? {
      var c := Meet(p, a, b).value;
      MeetIsCommon(p, a, b);
      RootShared(p, a, c);
      RootShared(p, b, c);
      forall x
        ensures x in Path(p, a) && x in Path(p, b) <==> x in Path(p, c)
      {
        PathSplits(p, a, c);
        PathSplits(p, b, c);
        if x in Path(p, a) && x in Path(p, b) {
          MeetIsLowest(p, a, b, x);
        }
      }
    }
  }

  lemma MeetIsSymmetric(p: Parents, a: State, b: State)
    requires Acyclic(p)
    ensures Meet(p, a, b) == Meet(p, b, a)
  {
    LowestCommonAncestor(p, a, b);
    LowestCommonAncestor(p, b, a);
    if Meet(p, a, b).Some? {
      var c, d := Meet(p, a, b).value, Meet(p, b, a).value;
      assert c in Path(p, d) && d in Path(p, c);
      PathDescends(p, d, c);
      PathDescends(p, c, d);
    }
  }

  // ---- Adding a state ----

  lemma {:induction false} PathUnchanged(p: Parents, s: State, parent: State, x: State)
    requires Acyclic(p) && Acyclic(p[s := parent]) && s !in Path(p, x)
    ensures Path(p[s := parent], x) == Path(p, x)
    decreases Depth(p)(x)
  {
    if x in p {
      PathUnchanged(p, s, parent, p[x]);
    }
  }

  ghost function RankAfter(p: Parents, s: State, parent: State, x: State): nat
    requires Acyclic(p)
  {
    |Path(p, x)| + if s in Path(p, x) then |Path(p, parent)| else 0
  }

  lemma AddKeepsAcyclic(p: Parents, s: State, parent: State)
    requires Acyclic(p) && s !in Path(p, parent)
    ensures Acyclic(p[s := parent])
  {
    var q := p[s := parent];
    var depth: State -> nat := x => RankAfter(p, s, parent, x);
    forall x | x in q
      ensures depth(q[x]) < depth(x)
    {
      if x != s {
        assert Path(p, x) == [x] + Path(p, p[x]);
      }
    }
    assert Ranks(q, depth);
  }

  lemma {:induction false} AddMakesCycle(p: Parents, s: State, parent: State, x: State)
    requires Acyclic(p) && Acyclic(p[s := parent]) && s in Path(p, x)
    ensures s in Path(p[s := parent], x)
    decreases Depth(p)(x)
  {
    if x != s {
      AddMakesCycle(p, s, parent, p[x]);
    }
  }

  /** Giving s a parent keeps the hierarchy free of cycles exactly when the parent
      is neither s nor below it; also when s had a parent before. */
  lemma AcyclicAfterAddIff(p: Parents, s: State, parent: State)
    requires Acyclic(p)
    ensures Acyclic(p[s := parent]) <==> s !in Path(p, parent)
  {
    if s !in Path(p, parent) {
      AddKeepsAcyclic(p, s, parent);
    } else if Acyclic(p[s := parent]) {
      AddMakesCycle(p, s, parent, parent);
      NotAboveItself(p[s := parent], s);
      assert false;
    }
  }
}
