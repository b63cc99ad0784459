/** The plant without messages: the same commands written over the whole tree,
    where a node may look at any descendant. The distributed protocol is proved
    to do exactly this. */
module PlantIdeal {
  import opened PlantModel
  import opened PlantInvariants

  type CoreMap = map<Id, Core>

  ghost predicate Covers(t: Hierarchy, c: CoreMap) { c.Keys == t.kids.Keys }

  /** Some node of the subtree of n stops production. */
  ghost predicate ImpactBelow(t: Hierarchy, c: CoreMap, n: Id) {
    exists d | d in c :: InSubtree(t, d, n) && OwnImpact(c[d])
  }

  ghost predicate KidsReady(t: Hierarchy, c: CoreMap, n: Id)
    requires Covers(t, c) && n in c
  {
    forall k | k in t.kids[n] :: c[k].ready
  }

  /** Neither faulted nor stopped by anything below. */
  ghost predicate Unhindered(t: Hierarchy, c: CoreMap, n: Id)
    requires n in c
  {
    c[n].fault == NoFault && !ImpactBelow(t, c, n)
  }

  /** An advance of n arrives at d: every node strictly above d, up to n, is
      unhindered and still waiting for a child. */
  ghost predicate Reached(t: Hierarchy, c: CoreMap, d: Id, n: Id)
    requires Covers(t, c) && d in c
    decreases t.depth[d]
  {
    d == n
    || (d in t.up && Reached(t, c, t.up[d], n) && Unhindered(t, c, t.up[d]) && !KidsReady(t, c, t.up[d]))
  }

  ghost predicate Moves(t: Hierarchy, c: CoreMap, d: Id, n: Id)
    requires Covers(t, c) && d in c
  {
    Reached(t, c, d, n) && Unhindered(t, c, d) && KidsReady(t, c, d)
  }

  /** One round: all nodes that can move take one step of their own plan, at once. */
  ghost function AdvanceAll(t: Hierarchy, c: CoreMap, id: Id): (r: CoreMap)
    requires Covers(t, c) && id in c
    ensures Covers(t, r)
  {
    map d | d in c :: if Moves(t, c, d, id) then Promote(c[d]) else c[d]
  }

  function Started(c: Core): Core { c.(working := true, step := Work) }

  function Finished(c: Core): Core { c.(working := false, step := Done) }

  /** Starting touches every node of the subtree, or none. */
  ghost function StartAll(t: Hierarchy, c: CoreMap, id: Id): (r: CoreMap)
    requires Covers(t, c) && id in c
    ensures Covers(t, r)
  {
    if c[id].ready && !ImpactBelow(t, c, id)
    then map d | d in c :: if InSubtree(t, d, id) then Started(c[d]) else c[d]
    else c
  }

  /** Every node from d up to n is working. */
  ghost predicate WorkingChain(t: Hierarchy, c: CoreMap, d: Id, n: Id)
    requires Covers(t, c) && d in c
    decreases t.depth[d]
  {
    c[d].working && (d == n || (d in t.up && WorkingChain(t, c, t.up[d], n)))
  }

  /** Finishing reaches a node through working nodes only. */
  ghost function FinishAll(t: Hierarchy, c: CoreMap, id: Id): (r: CoreMap)
    requires Covers(t, c) && id in c
    ensures Covers(t, r)
  {
    map d | d in c :: if WorkingChain(t, c, d, id) then Finished(c[d]) else c[d]
  }

  ghost predicate ReadyClosed(t: Hierarchy, c: CoreMap)
    requires Covers(t, c)
  {
    forall n | n in c && c[n].ready :: c[n].pos >= |c[n].plan| && KidsReady(t, c, n)
  }

  // ---- What the caches say is what the subtree is ----

  lemma ImpactSplit(t: Hierarchy, c: CoreMap, n: Id)
    requires Covers(t, c) && n in c
    ensures ImpactBelow(t, c, n) <==> OwnImpact(c[n]) || exists k | k in t.kids[n] :: ImpactBelow(t, c, k)
  {
    if OwnImpact(c[n]) {
      assert InSubtree(t, n, n);
    } else if k :| k in t.kids[n] && ImpactBelow(t, c, k) {
      var d :| d in c && InSubtree(t, d, k) && OwnImpact(c[d]);
      assert InSubtree(t, k, n);
      SubtreeTransitive(t, d, k, n);
    } else if ImpactBelow(t, c, n) {
      var d :| d in c && InSubtree(t, d, n) && OwnImpact(c[d]);
      var k := SubtreeSplit(t, d, n);
    }
  }

  /** Although a node sees only its children's reports, it blocks exactly when
      something below it stops production. */
  lemma {:induction false} BlockingIsExact(t: Hierarchy, s: Plant, dirty: set<Id>, n: Id)
    requires Fits(t, s) && n in s.nodes && Consistent(t, s, {}, dirty)
    ensures s.nodes[n].blocking <==> ImpactBelow(t, Cores(s), n)
    decreases t.height - t.depth[n]
  {
    var c, view := Cores(s), s.nodes[n].childBlock;
    assert Settled(s.nodes[n]) && OnlyKids(t, s, n);
    forall k | k in t.kids[n] ensures Cached(view, k) == ImpactBelow(t, c, k) {
      assert t.depth[t.up[k]] < t.depth[k] <= t.height;
      BlockingIsExact(t, s, dirty, k);
      assert Linked(t, s, k) && Settled(s.nodes[k]);
    }
    assert AnyBlocked(view) <==> exists k | k in t.kids[n] :: Cached(view, k) by {
      if k :| k in view && view[k] {
        assert Cached(view, k);
      }
    }
    ImpactSplit(t, c, n);
  }

  lemma ReadyCacheIsExact(t: Hierarchy, s: Plant, dirty: set<Id>, n: Id)
    requires Fits(t, s) && n in s.nodes && Consistent(t, s, {}, dirty)
    ensures AllReady(t.kids[n], s.nodes[n].childReady) <==> KidsReady(t, Cores(s), n)
  {
    var kids, view := t.kids[n], s.nodes[n].childReady;
    forall k | k in kids ensures Cached(view, k) == s.nodes[k].core.ready {
      assert Linked(t, s, k) && Settled(s.nodes[k]);
    }
    assert AllReady(kids, view) <==> forall k | k in kids :: Cached(view, k);
  }

  // ---- Local changes ----

  lemma SetCoreKeepsLink(t: Hierarchy, s: Plant, id: Id, c: Core, n: Id)
    requires Fits(t, s) && id in s.nodes && n in s.nodes
    requires Linked(t, s, n) && OnlyKids(t, s, n)
    ensures Linked(t, SetCore(s, id, c), n) && OnlyKids(t, SetCore(s, id, c), n)
  {
    var s1 := SetCore(s, id, c);
    assert s1.nodes[n].lastSig == s.nodes[n].lastSig;
    if n in t.up {
      var p := t.up[n];
      assert s1.nodes[p].childReady == s.nodes[p].childReady;
      assert s1.nodes[p].childBlock == s.nodes[p].childBlock;
    }
  }

  lemma SetCoreChanges(s: Plant, id: Id, c: Core)
    requires id in s.nodes
    ensures Cores(SetCore(s, id, c)) == Cores(s)[id := c]
    ensures forall n | n in s.nodes && n != id :: SetCore(s, id, c).nodes[n] == s.nodes[n]
    ensures SetCore(s, id, c).nodes[id] == s.nodes[id].(core := c)
  {
  }

  lemma SetCoreUnsettles(t: Hierarchy, s: Plant, id: Id, c: Core, dirty: set<Id>)
    requires Fits(t, s) && id in s.nodes && Consistent(t, s, {}, dirty)
    ensures Consistent(t, SetCore(s, id, c), {id}, dirty + {id})
    ensures SameButWork(s.nodes[id].core, c) ==> Consistent(t, SetCore(s, id, c), {}, dirty + {id})
    ensures Cores(SetCore(s, id, c)) == Cores(s)[id := c]
  {
    var s1 := SetCore(s, id, c);
    SetCoreChanges(s, id, c);
    forall n | n in s.nodes ensures Linked(t, s1, n) && OnlyKids(t, s1, n) {
      SetCoreKeepsLink(t, s, id, c, n);
    }
    forall n | n in s1.nodes && n !in dirty + {id} ensures Published(n, s1.nodes[n]) {
      assert s1.nodes[n] == s.nodes[n];
    }
    forall n | n in s1.nodes && (n != id || SameButWork(s.nodes[id].core, c)) ensures Settled(s1.nodes[n]) {
      assert Settled(s.nodes[n]);
    }
  }

  predicate SameButWork(a: Core, b: Core) { b.(step := a.step, working := a.working) == a }

  lemma Weaken(t: Hierarchy, s: Plant, dirty: set<Id>, more: set<Id>)
    requires Fits(t, s) && Consistent(t, s, {}, dirty) && dirty <= more
    ensures Consistent(t, s, {}, more)
  {
  }

  /** Change one node's own state and let the report climb. */
  lemma ChangeAndReport(t: Hierarchy, s: Plant, id: Id, c: Core, dirty: set<Id>)
    requires Fits(t, s) && id in s.nodes && Consistent(t, s, {}, dirty)
    ensures Consistent(t, Recompute(t, SetCore(s, id, c), id), {}, dirty)
    ensures Cores(Recompute(t, SetCore(s, id, c), id)) == Cores(s)[id := c]
  {
    SetCoreUnsettles(t, s, id, c, dirty);
    RecomputeSettles(t, SetCore(s, id, c), id, dirty);
    Weaken(t, Recompute(t, SetCore(s, id, c), id), dirty - {id}, dirty);
    RecomputeKeepsCores(t, SetCore(s, id, c), id);
  }

  // ---- Advancing ----

  ghost predicate AgreeBelow(t: Hierarchy, c: CoreMap, c': CoreMap, n: Id) {
    && c.Keys == c'.Keys
    && forall x | x in c && InSubtree(t, x, n) :: c'[x] == c[x]
  }

  lemma ImpactIsLocal(t: Hierarchy, c: CoreMap, c': CoreMap, n: Id)
    requires AgreeBelow(t, c, c', n)
    ensures ImpactBelow(t, c, n) <==> ImpactBelow(t, c', n)
  {
    if ImpactBelow(t, c, n) {
      var d :| d in c && InSubtree(t, d, n) && OwnImpact(c[d]);
      assert OwnImpact(c'[d]);
    }
    if ImpactBelow(t, c', n) {
      var d :| d in c' && InSubtree(t, d, n) && OwnImpact(c'[d]);
      assert OwnImpact(c[d]);
    }
  }

  lemma AgreeBelowDescends(t: Hierarchy, c: CoreMap, c': CoreMap, n: Id, d: Id)
    requires AgreeBelow(t, c, c', n) && InSubtree(t, d, n)
    ensures AgreeBelow(t, c, c', d)
  {
    forall x | x in c && InSubtree(t, x, d) ensures c'[x] == c[x] {
      SubtreeTransitive(t, x, d, n);
    }
  }

  lemma KidsReadyIsLocal(t: Hierarchy, c: CoreMap, c': CoreMap, n: Id)
    requires Covers(t, c) && n in c && AgreeBelow(t, c, c', n)
    ensures KidsReady(t, c, n) == KidsReady(t, c', n)
  {
    assert forall k | k in t.kids[n] :: k in t.up && InSubtree(t, k, n);
  }

  lemma {:induction false} ReachedInSubtree(t: Hierarchy, c: CoreMap, d: Id, n: Id)
    requires Covers(t, c) && d in c && Reached(t, c, d, n)
    ensures InSubtree(t, d, n) && n in c
    ensures d != n ==> Unhindered(t, c, n) && !KidsReady(t, c, n)
    decreases t.depth[d]
  {
    if d != n {
      ReachedInSubtree(t, c, t.up[d], n);
    }
  }

  lemma {:induction false} ReachedIsLocal(t: Hierarchy, c: CoreMap, c': CoreMap, d: Id, n: Id)
    requires Covers(t, c) && Covers(t, c') && d in c && AgreeBelow(t, c, c', n) && InSubtree(t, d, n)
    ensures Reached(t, c, d, n) <==> Reached(t, c', d, n)
    decreases t.depth[d]
  {
    if d != n {
      ReachedIsLocal(t, c, c', t.up[d], n);
      AgreeBelowDescends(t, c, c', n, t.up[d]);
      ImpactIsLocal(t, c, c', t.up[d]);
      KidsReadyIsLocal(t, c, c', t.up[d]);
      assert InSubtree(t, t.up[d], t.up[d]);
    }
  }

  lemma MovesIsLocal(t: Hierarchy, c: CoreMap, c': CoreMap, d: Id, n: Id)
    requires Covers(t, c) && Covers(t, c') && d in c && AgreeBelow(t, c, c', n)
    ensures Moves(t, c, d, n) <==> Moves(t, c', d, n)
  {
    if InSubtree(t, d, n) {
      ReachedIsLocal(t, c, c', d, n);
      AgreeBelowDescends(t, c, c', n, d);
      ImpactIsLocal(t, c, c', d);
      KidsReadyIsLocal(t, c, c', d);
      assert InSubtree(t, d, d);
    } else {
      if Reached(t, c, d, n) { ReachedInSubtree(t, c, d, n); }
      if Reached(t, c', d, n) { ReachedInSubtree(t, c', d, n); }
    }
  }

  ghost predicate MovesUnder(t: Hierarchy, c: CoreMap, d: Id, n: Id, k: nat)
    requires Covers(t, c) && d in c && n in c && k <= |t.kids[n]|
  {
    exists i | 0 <= i < k :: Moves(t, c, d, t.kids[n][i])
  }

  /** The nodes that move under n are n itself, or those that move under its children. */
  lemma {:induction false} ReachedSplit(t: Hierarchy, c: CoreMap, d: Id, n: Id)
    requires Covers(t, c) && d in c && n in c && d != n
    requires Unhindered(t, c, n) && !KidsReady(t, c, n)
    ensures Reached(t, c, d, n) <==> exists i | 0 <= i < |t.kids[n]| :: Reached(t, c, d, t.kids[n][i])
    decreases t.depth[d]
  {
    var kids := t.kids[n];
    assert forall i | 0 <= i < |kids| :: kids[i] in kids;
    if d in t.up && t.up[d] == n {
      var i :| 0 <= i < |kids| && kids[i] == d;
      assert Reached(t, c, d, kids[i]);
    } else if d in t.up {
      ReachedSplit(t, c, t.up[d], n);
      if Reached(t, c, d, n) {
        var i :| 0 <= i < |kids| && Reached(t, c, t.up[d], kids[i]);
        assert Reached(t, c, d, kids[i]);
      }
      if i :| 0 <= i < |kids| && Reached(t, c, d, kids[i]) {
        assert d != kids[i];
        assert Reached(t, c, t.up[d], kids[i]);
      }
    }
  }

  lemma KidIsLower(t: Hierarchy, id: Id, i: nat)
    requires id in t.kids && i < |t.kids[id]|
    ensures var kid := t.kids[id][i]; kid in t.kids && t.depth[id] < t.depth[kid] <= t.height
  {
    var kid := t.kids[id][i];
    assert kid in t.kids[id] && t.depth[t.up[kid]] < t.depth[kid];
  }

  ghost function AdvanceFirst(t: Hierarchy, c: CoreMap, id: Id, k: nat): (r: CoreMap)
    requires Covers(t, c) && id in c && k <= |t.kids[id]|
    ensures Covers(t, r)
  {
    map d | d in c :: if MovesUnder(t, c, d, id, k) then Promote(c[d]) else c[d]
  }

  lemma AdvanceNone(t: Hierarchy, c: CoreMap, id: Id)
    requires Covers(t, c) && id in c
    ensures AdvanceFirst(t, c, id, 0) == c
  {
  }

  /** What the first children did leaves the subtree of the next one alone. */
  lemma AdvanceFirstAgrees(t: Hierarchy, c: CoreMap, id: Id, k: nat)
    requires Covers(t, c) && id in c && k < |t.kids[id]|
    ensures AgreeBelow(t, c, AdvanceFirst(t, c, id, k), t.kids[id][k])
  {
    var kid := t.kids[id][k];
    assert kid in t.kids[id];
    forall x | x in c && InSubtree(t, x, kid) ensures !MovesUnder(t, c, x, id, k) {
      if i :| 0 <= i < k && Moves(t, c, x, t.kids[id][i]) {
        assert t.kids[id][i] in t.kids[id];
        ReachedInSubtree(t, c, x, t.kids[id][i]);
        SiblingsDisjoint(t, x, id, kid, t.kids[id][i]);
        assert false;
      }
    }
  }

  lemma AdvanceFirstStep(t: Hierarchy, c: CoreMap, id: Id, k: nat)
    requires Covers(t, c) && id in c && 0 < k <= |t.kids[id]| && t.kids[id][k - 1] in c
    ensures AdvanceAll(t, AdvanceFirst(t, c, id, k - 1), t.kids[id][k - 1]) == AdvanceFirst(t, c, id, k)
  {
    hide Moves, MovesUnder, Topology.Valid, Promote;
    var before, kid := AdvanceFirst(t, c, id, k - 1), t.kids[id][k - 1];
    AdvanceFirstAgrees(t, c, id, k - 1);
    forall d | d in c
      ensures AdvanceAll(t, before, kid)[d] == AdvanceFirst(t, c, id, k)[d]
    {
      AdvanceFirstStepAt(t, c, id, k, d);
    }
  }

  lemma AdvanceFirstStepAt(t: Hierarchy, c: CoreMap, id: Id, k: nat, d: Id)
    requires Covers(t, c) && id in c && 0 < k <= |t.kids[id]| && t.kids[id][k - 1] in c && d in c
    ensures AdvanceAll(t, AdvanceFirst(t, c, id, k - 1), t.kids[id][k - 1])[d] == AdvanceFirst(t, c, id, k)[d]
  {
    hide Reached, Unhindered, KidsReady, InSubtree, ImpactBelow, Topology.Valid, Promote;
    var before, kid := AdvanceFirst(t, c, id, k - 1), t.kids[id][k - 1];
    AdvanceFirstAgrees(t, c, id, k - 1);
    MovesIsLocal(t, c, before, d, kid);
    assert MovesUnder(t, c, d, id, k - 1) ==> MovesUnder(t, c, d, id, k);
    if Moves(t, c, d, kid) {
      ReachedInSubtree(t, c, d, kid);
      assert before[d] == c[d];
    } else if MovesUnder(t, c, d, id, k) {
      var i :| 0 <= i < k && Moves(t, c, d, t.kids[id][i]);
      assert MovesUnder(t, c, d, id, k - 1);
    }
  }

  lemma AdvanceByKids(t: Hierarchy, c: CoreMap, id: Id)
    requires Covers(t, c) && id in c
    ensures !Unhindered(t, c, id) ==> AdvanceAll(t, c, id) == c
    ensures Unhindered(t, c, id) && KidsReady(t, c, id) ==> AdvanceAll(t, c, id) == c[id := Promote(c[id])]
    ensures Unhindered(t, c, id) && !KidsReady(t, c, id) ==>
      AdvanceAll(t, c, id) == AdvanceFirst(t, c, id, |t.kids[id]|)
  {
    forall d | d in c
      ensures !Unhindered(t, c, id) ==> !Moves(t, c, d, id)
      ensures Unhindered(t, c, id) && KidsReady(t, c, id) ==> (Moves(t, c, d, id) <==> d == id)
      ensures Unhindered(t, c, id) && !KidsReady(t, c, id) ==>
        (Moves(t, c, d, id) <==> MovesUnder(t, c, d, id, |t.kids[id]|))
    {
      if Reached(t, c, d, id) { ReachedInSubtree(t, c, d, id); }
      if Unhindered(t, c, id) && !KidsReady(t, c, id) {
        if d != id {
          ReachedSplit(t, c, d, id);
        }
      }
    }
  }

  lemma {:induction false} AdvanceRefines(t: Hierarchy, s: Plant, id: Id, dirty: set<Id>)
    requires Fits(t, s) && id in s.nodes && Consistent(t, s, {}, dirty)
    ensures Consistent(t, Advance(t, s, id), {}, dirty)
    ensures Cores(Advance(t, s, id)) == AdvanceAll(t, Cores(s), id)
    decreases t.height - t.depth[id], |t.kids[id]| + 1
  {
    var n := s.nodes[id];
    BlockingIsExact(t, s, dirty, id);
    ReadyCacheIsExact(t, s, dirty, id);
    AdvanceByKids(t, Cores(s), id);
    if n.core.fault != NoFault || n.blocking {
    } else if t.kids[id] != [] && !AllReady(t.kids[id], n.childReady) {
      AdvanceKidsRefines(t, s, id, |t.kids[id]|, dirty);
    } else {
      ChangeAndReport(t, s, id, Promote(n.core), dirty);
    }
  }

  lemma {:induction false} AdvanceKidsRefines(t: Hierarchy, s: Plant, id: Id, k: nat, dirty: set<Id>)
    requires Fits(t, s) && id in s.nodes && k <= |t.kids[id]| && Consistent(t, s, {}, dirty)
    ensures Consistent(t, AdvanceKids(t, s, id, k), {}, dirty)
    ensures Cores(AdvanceKids(t, s, id, k)) == AdvanceFirst(t, Cores(s), id, k)
    decreases t.height - t.depth[id], k
  {
    hide Consistent, Cores, AdvanceFirst, AdvanceAll, Advance, Topology.Valid;
    if k > 0 {
      KidIsLower(t, id, k - 1);
      AdvanceKidsRefines(t, s, id, k - 1, dirty);
      AdvanceRefines(t, AdvanceKids(t, s, id, k - 1), t.kids[id][k - 1], dirty);
      AdvanceFirstStep(t, Cores(s), id, k);
    } else {
      AdvanceNone(t, Cores(s), id);
    }
  }

  // ---- Starting ----

  ghost predicate UnderFirst(t: Hierarchy, d: Id, n: Id, k: nat)
    requires n in t.kids && k <= |t.kids[n]|
  {
    exists i | 0 <= i < k :: InSubtree(t, d, t.kids[n][i])
  }

  lemma SubtreeByKids(t: Hierarchy, d: Id, n: Id)
    requires n in t.kids
    ensures InSubtree(t, d, n) <==> d == n || UnderFirst(t, d, n, |t.kids[n]|)
  {
    if InSubtree(t, d, n) && d != n {
      var kid := SubtreeSplit(t, d, n);
      var i :| 0 <= i < |t.kids[n]| && t.kids[n][i] == kid;
      assert InSubtree(t, d, t.kids[n][i]);
    }
    if i :| 0 <= i < |t.kids[n]| && InSubtree(t, d, t.kids[n][i]) {
      var kid := t.kids[n][i];
      assert kid in t.kids[n] && InSubtree(t, kid, n);
      SubtreeTransitive(t, d, kid, n);
    }
  }

  /** What deciding about a subtree depends on. */
  ghost predicate SameGuards(c: CoreMap, c': CoreMap) {
    && c.Keys == c'.Keys
    && forall d | d in c :: c'[d].(step := c[d].step, working := c[d].working) == c[d]
  }

  lemma GuardsDecide(t: Hierarchy, c: CoreMap, c': CoreMap, n: Id)
    requires SameGuards(c, c')
    ensures ImpactBelow(t, c, n) <==> ImpactBelow(t, c', n)
    ensures Covers(t, c) && ReadyClosed(t, c) ==> ReadyClosed(t, c')
  {
    if ImpactBelow(t, c, n) {
      var d :| d in c && InSubtree(t, d, n) && OwnImpact(c[d]);
      assert OwnImpact(c'[d]);
    }
    if ImpactBelow(t, c', n) {
      var d :| d in c' && InSubtree(t, d, n) && OwnImpact(c'[d]);
      assert OwnImpact(c[d]);
    }
    if Covers(t, c) && ReadyClosed(t, c) {
      forall m | m in c' && c'[m].ready ensures KidsReady(t, c', m) { assert KidsReady(t, c, m); }
    }
  }

  ghost function StartFirst(t: Hierarchy, c: CoreMap, id: Id, k: nat): (r: CoreMap)
    requires Covers(t, c) && id in c && k <= |t.kids[id]|
    ensures Covers(t, r) && SameGuards(c, r)
  {
    map d | d in c :: if UnderFirst(t, d, id, k) then Started(c[d]) else c[d]
  }

  lemma StartNone(t: Hierarchy, c: CoreMap, id: Id)
    requires Covers(t, c) && id in c
    ensures StartFirst(t, c, id, 0) == c
  {
  }

  lemma StartFirstStep(t: Hierarchy, c: CoreMap, id: Id, k: nat)
    requires Covers(t, c) && id in c && 0 < k <= |t.kids[id]| && t.kids[id][k - 1] in c
    requires var before := StartFirst(t, c, id, k - 1);
      before[t.kids[id][k - 1]].ready && !ImpactBelow(t, before, t.kids[id][k - 1])
    ensures StartAll(t, StartFirst(t, c, id, k - 1), t.kids[id][k - 1]) == StartFirst(t, c, id, k)
  {
    hide InSubtree, ImpactBelow, SameGuards, Topology.Valid;
    forall d | d in c
      ensures UnderFirst(t, d, id, k) <==> UnderFirst(t, d, id, k - 1) || InSubtree(t, d, t.kids[id][k - 1])
    {
      if UnderFirst(t, d, id, k) {
        var i :| 0 <= i < k && InSubtree(t, d, t.kids[id][i]);
        assert i < k - 1 ==> UnderFirst(t, d, id, k - 1);
      }
    }
  }

  lemma StartRootAndKids(t: Hierarchy, c: CoreMap, id: Id)
    requires Covers(t, c) && id in c && c[id].ready && !ImpactBelow(t, c, id)
    ensures StartFirst(t, c[id := Started(c[id])], id, |t.kids[id]|) == StartAll(t, c, id)
  {
    hide InSubtree, ImpactBelow, UnderFirst, SameGuards, Topology.Valid;
    forall d | d in c
      ensures InSubtree(t, d, id) <==> d == id || UnderFirst(t, d, id, |t.kids[id]|)
    {
      SubtreeByKids(t, d, id);
    }
  }

  lemma StartedRootGuards(t: Hierarchy, c: CoreMap, id: Id)
    requires Covers(t, c) && id in c && ReadyClosed(t, c)
    ensures ReadyClosed(t, c[id := Started(c[id])])
    ensures ImpactBelow(t, c[id := Started(c[id])], id) == ImpactBelow(t, c, id)
  {
    GuardsDecide(t, c, c[id := Started(c[id])], id);
  }

  /** The guard of the root holds in every child, whatever was started before it. */
  lemma KidMayStart(t: Hierarchy, c: CoreMap, id: Id, k: nat)
    requires Covers(t, c) && id in c && 0 < k <= |t.kids[id]|
    requires ReadyClosed(t, c) && c[id].ready && !ImpactBelow(t, c, id)
    ensures t.kids[id][k - 1] in c
    ensures var before := StartFirst(t, c, id, k - 1);
      ReadyClosed(t, before) && before[t.kids[id][k - 1]].ready && !ImpactBelow(t, before, t.kids[id][k - 1])
  {
    var kid := t.kids[id][k - 1];
    assert kid in t.kids[id] && KidsReady(t, c, id);
    ImpactSplit(t, c, id);
    GuardsDecide(t, c, StartFirst(t, c, id, k - 1), kid);
  }

  lemma {:induction false} StartKidsRefines(t: Hierarchy, s: Plant, id: Id, k: nat, dirty: set<Id>)
    requires Fits(t, s) && id in s.nodes && k <= |t.kids[id]| && Consistent(t, s, {}, dirty)
    requires ReadyClosed(t, Cores(s)) && Cores(s)[id].ready && !ImpactBelow(t, Cores(s), id)
    ensures Consistent(t, StartKids(t, s, id, k), {}, dirty)
    ensures Cores(StartKids(t, s, id, k)) == StartFirst(t, Cores(s), id, k)
    decreases t.height - t.depth[id], k
  {
    hide Consistent, Cores, StartFirst, StartAll, StartWork, ReadyClosed, ImpactBelow, SameGuards;
    var c := Cores(s);
    if k > 0 {
      var kid := t.kids[id][k - 1];
      KidIsLower(t, id, k - 1);
      StartKidsRefines(t, s, id, k - 1, dirty);
      KidMayStart(t, c, id, k);
      StartRefines(t, StartKids(t, s, id, k - 1), kid, dirty);
      StartFirstStep(t, c, id, k);
    } else {
      StartNone(t, c, id);
    }
  }

  /** Starting is all-or-nothing: the guard read from the caches either holds in
      the whole subtree or stops the command at its root. */
  lemma {:induction false} StartRefines(t: Hierarchy, s: Plant, id: Id, dirty: set<Id>)
    requires Fits(t, s) && id in s.nodes && Consistent(t, s, {}, dirty)
    requires ReadyClosed(t, Cores(s))
    ensures Consistent(t, StartWork(t, s, id), {}, dirty)
    ensures Cores(StartWork(t, s, id)) == StartAll(t, Cores(s), id)
    decreases t.height - t.depth[id], |t.kids[id]| + 1
  {
    var c, n := Cores(s), s.nodes[id];
    BlockingIsExact(t, s, dirty, id);
    if n.core.ready && !n.blocking {
      var s1 := SetCore(s, id, Started(n.core));
      SetCoreUnsettles(t, s, id, Started(n.core), dirty);
      StartedRootGuards(t, c, id);
      StartKidsRefines(t, s1, id, |t.kids[id]|, dirty + {id});
      var s2 := StartKids(t, s1, id, |t.kids[id]|);
      RecomputeSettles(t, s2, id, dirty);
      Weaken(t, Recompute(t, s2, id), dirty - {id}, dirty);
      RecomputeKeepsCores(t, s2, id);
      StartRootAndKids(t, c, id);
    }
  }

  // ---- Finishing ----

  lemma {:induction false} ChainInSubtree(t: Hierarchy, c: CoreMap, d: Id, n: Id)
    requires Covers(t, c) && d in c && WorkingChain(t, c, d, n)
    ensures InSubtree(t, d, n) && n in c && c[n].working
    decreases t.depth[d]
  {
    if d != n {
      ChainInSubtree(t, c, t.up[d], n);
    }
  }

  lemma {:induction false} ChainIsLocal(t: Hierarchy, c: CoreMap, c': CoreMap, d: Id, n: Id)
    requires Covers(t, c) && Covers(t, c') && d in c && InSubtree(t, d, n)
    requires forall x | x in c && InSubtree(t, x, n) :: c'[x].working == c[x].working
    ensures WorkingChain(t, c, d, n) <==> WorkingChain(t, c', d, n)
    decreases t.depth[d]
  {
    if d != n {
      ChainIsLocal(t, c, c', t.up[d], n);
    }
  }

  lemma {:induction false} ChainSplit(t: Hierarchy, c: CoreMap, d: Id, n: Id)
    requires Covers(t, c) && d in c && n in c && c[n].working
    ensures WorkingChain(t, c, d, n) <==> d == n || ChainToFirst(t, c, d, n, |t.kids[n]|)
    decreases t.depth[d]
  {
    if d != n && d in t.up {
      ChainSplit(t, c, t.up[d], n);
      if i :| 0 <= i < |t.kids[n]| && WorkingChain(t, c, d, t.kids[n][i]) {
        var kid := t.kids[n][i];
        assert kid in t.kids[n];
        if d != kid {
          assert WorkingChain(t, c, t.up[d], kid);
        }
      }
      if WorkingChain(t, c, d, n) {
        if t.up[d] == n {
          var i :| 0 <= i < |t.kids[n]| && t.kids[n][i] == d;
          assert WorkingChain(t, c, d, t.kids[n][i]);
        } else {
          var i :| 0 <= i < |t.kids[n]| && WorkingChain(t, c, t.up[d], t.kids[n][i]);
          assert WorkingChain(t, c, d, t.kids[n][i]);
        }
      }
    } else if d != n {
      assert forall i | 0 <= i < |t.kids[n]| :: t.kids[n][i] in t.kids[n];
    }
  }

  ghost predicate ChainToFirst(t: Hierarchy, c: CoreMap, d: Id, n: Id, k: nat)
    requires Covers(t, c) && d in c && n in c && k <= |t.kids[n]|
  {
    exists i | 0 <= i < k :: WorkingChain(t, c, d, t.kids[n][i])
  }

  ghost function FinishFirst(t: Hierarchy, c: CoreMap, id: Id, k: nat): (r: CoreMap)
    requires Covers(t, c) && id in c && k <= |t.kids[id]|
    ensures Covers(t, r)
  {
    map d | d in c :: if ChainToFirst(t, c, d, id, k) then Finished(c[d]) else c[d]
  }

  /** Finishing the first children leaves the working chains of the next one alone. */
  lemma ChainsOfSiblings(t: Hierarchy, c: CoreMap, id: Id, k: nat, d: Id)
    requires Covers(t, c) && id in c && k < |t.kids[id]| && d in c
    ensures WorkingChain(t, FinishFirst(t, c, id, k), d, t.kids[id][k]) <==> WorkingChain(t, c, d, t.kids[id][k])
    ensures WorkingChain(t, c, d, t.kids[id][k]) ==> !ChainToFirst(t, c, d, id, k)
  {
    var c', kid := FinishFirst(t, c, id, k), t.kids[id][k];
    assert kid in t.kids[id];
    forall x | x in c && InSubtree(t, x, kid)
      ensures !ChainToFirst(t, c, x, id, k)
    {
      if i :| 0 <= i < k && WorkingChain(t, c, x, t.kids[id][i]) {
        assert t.kids[id][i] in t.kids[id];
        ChainInSubtree(t, c, x, t.kids[id][i]);
        SiblingsDisjoint(t, x, id, kid, t.kids[id][i]);
        assert false;
      }
    }
    if InSubtree(t, d, kid) {
      ChainIsLocal(t, c, c', d, kid);
    } else {
      if WorkingChain(t, c, d, kid) { ChainInSubtree(t, c, d, kid); }
      if WorkingChain(t, c', d, kid) { ChainInSubtree(t, c', d, kid); }
    }
  }

  lemma FinishNone(t: Hierarchy, c: CoreMap, id: Id)
    requires Covers(t, c) && id in c
    ensures FinishFirst(t, c, id, 0) == c
  {
  }

  lemma FinishFirstStep(t: Hierarchy, c: CoreMap, id: Id, k: nat)
    requires Covers(t, c) && id in c && 0 < k <= |t.kids[id]| && t.kids[id][k - 1] in c
    ensures FinishAll(t, FinishFirst(t, c, id, k - 1), t.kids[id][k - 1]) == FinishFirst(t, c, id, k)
  {
    hide WorkingChain, Topology.Valid;
    forall d | d in c
      ensures ChainToFirst(t, c, d, id, k) <==>
        ChainToFirst(t, c, d, id, k - 1) || WorkingChain(t, c, d, t.kids[id][k - 1])
    {
      if ChainToFirst(t, c, d, id, k) {
        var i :| 0 <= i < k && WorkingChain(t, c, d, t.kids[id][i]);
        assert i < k - 1 ==> ChainToFirst(t, c, d, id, k - 1);
      }
      if i :| 0 <= i < k - 1 && WorkingChain(t, c, d, t.kids[id][i]) {
        assert ChainToFirst(t, c, d, id, k);
      }
    }
    forall d | d in c
      ensures WorkingChain(t, FinishFirst(t, c, id, k - 1), d, t.kids[id][k - 1])
              == WorkingChain(t, c, d, t.kids[id][k - 1])
    {
      ChainsOfSiblings(t, c, id, k - 1, d);
    }
  }

  lemma {:induction false} FinishKidsRefines(t: Hierarchy, s: Plant, id: Id, k: nat, dirty: set<Id>)
    requires Fits(t, s) && id in s.nodes && k <= |t.kids[id]| && Consistent(t, s, {}, dirty)
    ensures Consistent(t, FinishKids(t, s, id, k), {}, dirty)
    ensures Cores(FinishKids(t, s, id, k)) == FinishFirst(t, Cores(s), id, k)
    decreases t.height - t.depth[id], k
  {
    hide Consistent, Cores, FinishFirst, FinishAll, FinishWork;
    var c := Cores(s);
    if k > 0 {
      var kid := t.kids[id][k - 1];
      KidIsLower(t, id, k - 1);
      FinishKidsRefines(t, s, id, k - 1, dirty);
      FinishRefines(t, FinishKids(t, s, id, k - 1), kid, dirty);
      FinishFirstStep(t, c, id, k);
    } else {
      FinishNone(t, c, id);
    }
  }

  lemma {:induction false} FinishRefines(t: Hierarchy, s: Plant, id: Id, dirty: set<Id>)
    requires Fits(t, s) && id in s.nodes && Consistent(t, s, {}, dirty)
    ensures Consistent(t, FinishWork(t, s, id), {}, dirty)
    ensures Cores(FinishWork(t, s, id)) == FinishAll(t, Cores(s), id)
    decreases t.height - t.depth[id], |t.kids[id]| + 1
  {
    var c, n := Cores(s), s.nodes[id];
    if n.core.working {
      var s1 := SetCore(s, id, Finished(n.core));
      SetCoreUnsettles(t, s, id, Finished(n.core), dirty);
      FinishKidsRefines(t, s1, id, |t.kids[id]|, dirty + {id});
      var s2 := FinishKids(t, s1, id, |t.kids[id]|);
      RecomputeSettles(t, s2, id, dirty);
      Weaken(t, Recompute(t, s2, id), dirty - {id}, dirty);
      RecomputeKeepsCores(t, s2, id);
      FinishRootAndKids(t, c, id);
    } else {
      forall d | d in c ensures !WorkingChain(t, c, d, id) {
        if WorkingChain(t, c, d, id) { ChainInSubtree(t, c, d, id); }
      }
      assert FinishAll(t, c, id) == c;
    }
  }

  lemma FinishRootAndKids(t: Hierarchy, c: CoreMap, id: Id)
    requires Covers(t, c) && id in c && c[id].working
    ensures FinishFirst(t, c[id := Finished(c[id])], id, |t.kids[id]|) == FinishAll(t, c, id)
  {
    var c1 := c[id := Finished(c[id])];
    forall d | d in c
      ensures FinishFirst(t, c1, id, |t.kids[id]|)[d] == FinishAll(t, c, id)[d]
    {
      ChainSplit(t, c, d, id);
      forall i | 0 <= i < |t.kids[id]|
        ensures WorkingChain(t, c1, d, t.kids[id][i]) == WorkingChain(t, c, d, t.kids[id][i])
        ensures d == id ==> !WorkingChain(t, c1, d, t.kids[id][i])
      {
        ChainAvoidsParent(t, c, id, t.kids[id][i], d);
      }
    }
  }

  lemma ChainAvoidsParent(t: Hierarchy, c: CoreMap, id: Id, kid: Id, d: Id)
    requires Covers(t, c) && id in c && kid in t.kids[id] && d in c
    ensures WorkingChain(t, c[id := Finished(c[id])], d, kid) == WorkingChain(t, c, d, kid)
    ensures !WorkingChain(t, c, id, kid)
  {
    var c1 := c[id := Finished(c[id])];
    KidNotAbove(t, id, kid);
    if WorkingChain(t, c, id, kid) { ChainInSubtree(t, c, id, kid); }
    if InSubtree(t, d, kid) {
      ChainIsLocal(t, c, c1, d, kid);
    } else {
      if WorkingChain(t, c, d, kid) { ChainInSubtree(t, c, d, kid); }
      if WorkingChain(t, c1, d, kid) { ChainInSubtree(t, c1, d, kid); }
    }
  }

  // ---- Faults ----

  ghost function FailAll(t: Hierarchy, c: CoreMap, id: Id, severity: FaultLevel): (r: CoreMap)
    requires Covers(t, c) && id in c
    ensures Covers(t, r)
  {
    c[id := c[id].(fault := WorstOf(c[id].fault, severity))]
  }

  ghost function ClearAll(t: Hierarchy, c: CoreMap, id: Id): (r: CoreMap)
    requires Covers(t, c) && id in c
    ensures Covers(t, r)
  {
    c[id := c[id].(fault := NoFault)]
  }

  lemma FailRefines(t: Hierarchy, s: Plant, id: Id, severity: FaultLevel, dirty: set<Id>)
    requires Fits(t, s) && id in s.nodes && Consistent(t, s, {}, dirty)
    ensures Consistent(t, Fail(t, s, id, severity), {}, dirty)
    ensures Cores(Fail(t, s, id, severity)) == FailAll(t, Cores(s), id, severity)
  {
    var c := s.nodes[id].core;
    ChangeAndReport(t, s, id, c.(fault := WorstOf(c.fault, severity)), dirty);
  }

  lemma ClearRefines(t: Hierarchy, s: Plant, id: Id, dirty: set<Id>)
    requires Fits(t, s) && id in s.nodes && Consistent(t, s, {}, dirty)
    ensures Consistent(t, ClearFault(t, s, id), {}, dirty)
    ensures Cores(ClearFault(t, s, id)) == ClearAll(t, Cores(s), id)
  {
    hide Consistent, Recompute, SetCore, Topology.Valid;
    var c := s.nodes[id].core;
    if c.fault != NoFault {
      ChangeAndReport(t, s, id, c.(fault := NoFault), dirty);
    } else {
      assert Cores(s)[id] == c.(fault := NoFault);
      assert ClearAll(t, Cores(s), id) == Cores(s);
    }
  }
}
