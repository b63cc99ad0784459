/** What every call on the plant keeps, although a call re-enters its own caller
    through the reports of the children it drives. */
module PlantInvariants {
  import opened PlantModel

  // ---- Descendants ----

  /** d is n or lies below n: an independent reading of the upstream links. */
  ghost predicate InSubtree(t: Hierarchy, d: Id, n: Id)
    decreases if d in t.depth then t.depth[d] else 0
  {
    d == n || (d in t.up && InSubtree(t, t.up[d], n))
  }

  lemma {:induction false} SubtreeSplit(t: Hierarchy, d: Id, n: Id) returns (c: Id)
    requires InSubtree(t, d, n) && d != n
    ensures n in t.kids && c in t.kids[n] && InSubtree(t, d, c)
    decreases t.depth[d]
  {
    if t.up[d] == n {
      c := d;
    } else {
      c := SubtreeSplit(t, t.up[d], n);
    }
  }

  lemma {:induction false} SubtreeTransitive(t: Hierarchy, a: Id, b: Id, c: Id)
    requires InSubtree(t, a, b) && InSubtree(t, b, c)
    ensures InSubtree(t, a, c)
    decreases if a in t.depth then t.depth[a] else 0
  {
    if a != b {
      SubtreeTransitive(t, t.up[a], b, c);
    }
  }

  lemma {:induction false} SubtreeDeeper(t: Hierarchy, d: Id, n: Id)
    requires InSubtree(t, d, n) && d != n
    ensures d in t.depth && n in t.depth && t.depth[n] < t.depth[d]
    decreases t.depth[d]
  {
    if t.up[d] != n {
      SubtreeDeeper(t, t.up[d], n);
    }
  }

  lemma KidNotAbove(t: Hierarchy, n: Id, c: Id)
    requires n in t.kids && c in t.kids[n]
    ensures !InSubtree(t, n, c)
  {
    assert t.depth[t.up[c]] < t.depth[c];
    if InSubtree(t, n, c) {
      SubtreeDeeper(t, n, c);
    }
  }

  /** Subtrees of siblings are disjoint. */
  lemma {:induction false} SiblingsDisjoint(t: Hierarchy, d: Id, n: Id, a: Id, b: Id)
    requires n in t.kids && a in t.kids[n] && b in t.kids[n]
    requires InSubtree(t, d, a) && InSubtree(t, d, b)
    ensures a == b
    decreases if d in t.depth then t.depth[d] else 0
  {
    if d == a && d != b {
      KidNotAbove(t, n, b);
    } else if d != a && d == b {
      KidNotAbove(t, n, a);
    } else if d != a {
      SiblingsDisjoint(t, t.up[d], n, a, b);
    }
  }

  // ---- The invariant ----

  predicate OwnImpact(c: Core) { AffectsProduction(c.fault, c.critical) }

  ghost predicate Linked(t: Hierarchy, s: Plant, c: Id)
    requires Fits(t, s) && c in s.nodes
  {
    c in t.up ==>
      var parent := s.nodes[t.up[c]];
      && Cached(parent.childReady, c) == SignedReady(s.nodes[c].lastSig)
      && Cached(parent.childBlock, c) == SignedBlocking(s.nodes[c].lastSig)
  }

  /** The parent only caches its own children. */
  ghost predicate OnlyKids(t: Hierarchy, s: Plant, p: Id)
    requires Fits(t, s) && p in s.nodes
  {
    forall c | c in s.nodes[p].childBlock :: c in t.kids[p]
  }

  /** The last published ready and blocking flags are the real ones, and blocking
      is what the node must derive from its fault and its cache. */
  predicate Settled(n: Node) {
    && SignedReady(n.lastSig) == n.core.ready
    && SignedBlocking(n.lastSig) == n.blocking
    && n.childBlocked == AnyBlocked(n.childBlock)
    && n.blocking == (OwnImpact(n.core) || n.childBlocked)
  }

  /** Nothing is left unpublished: the last published signature is that of the
      present report, or nothing was published and nothing has changed. */
  predicate Published(id: Id, n: Node) {
    || n.lastSig == Signature(BuildReport(id, n))
    || (n.lastSig == NEVER_PUBLISHED && n.core.step == Unknown && n.core.fault == NoFault
        && !n.core.ready && !n.blocking)
  }

  ghost predicate LinksHold(t: Hierarchy, s: Plant)
    requires Fits(t, s)
  {
    && (forall n {:trigger OnlyKids(t, s, n)} | n in s.nodes :: OnlyKids(t, s, n))
    && (forall n {:trigger Linked(t, s, n)} | n in s.nodes :: Linked(t, s, n))
  }

  /** All nodes are settled except possibly those in `unsettled`, and all have
      published what they are except possibly those in `dirty`. */
  ghost predicate Consistent(t: Hierarchy, s: Plant, unsettled: set<Id>, dirty: set<Id>)
    requires Fits(t, s)
  {
    && LinksHold(t, s)
    && (forall n | n in s.nodes && n !in unsettled :: Settled(s.nodes[n]))
    && (forall n | n in s.nodes && n !in dirty :: Published(n, s.nodes[n]))
  }

  function Cores(s: Plant): (c: map<Id, Core>)
    ensures c.Keys == s.nodes.Keys
  {
    map n | n in s.nodes :: s.nodes[n].core
  }

  // ---- One report climbing the tree ----

  lemma RefreshKeepsLinks(t: Hierarchy, s: Plant, id: Id, unsettled: set<Id>, dirty: set<Id>)
    requires Fits(t, s) && id in s.nodes
    requires Consistent(t, s, unsettled, dirty)
    ensures Consistent(t, Refresh(s, id), unsettled + {id}, dirty + {id})
  {
    var s0 := Refresh(s, id);
    forall c | c in s0.nodes ensures Linked(t, s0, c) { assert Linked(t, s, c); }
    forall c | c in s0.nodes ensures OnlyKids(t, s0, c) { assert OnlyKids(t, s, c); }
  }

  /** Letting a report out and storing it one level up. */
  function Hop(s: Plant, id: Id, p: Id): (r: Plant)
    requires id in s.nodes && p in s.nodes && p != id
    ensures r.nodes.Keys == s.nodes.Keys
    ensures forall n | n in s.nodes && n != id && n != p :: r.nodes[n] == s.nodes[n]
    ensures r.nodes[id] == s.nodes[id].(lastSig := Signature(BuildReport(id, s.nodes[id])))
    ensures r.nodes[p].(childReady := s.nodes[p].childReady, childBlock := s.nodes[p].childBlock) == s.nodes[p]
    ensures r.nodes[p].childReady == s.nodes[p].childReady[id := s.nodes[id].core.ready]
    ensures r.nodes[p].childBlock == s.nodes[p].childBlock[id := s.nodes[id].blocking]
  {
    Receive(Emit(s, id), p, BuildReport(id, s.nodes[id]))
  }

  lemma HopLinksSender(t: Hierarchy, s: Plant, id: Id)
    requires Fits(t, s) && id in t.up && t.up[id] != id
    ensures Linked(t, Hop(s, id, t.up[id]), id)
  {
    hide Signature, SignedReady, SignedBlocking;
    SignatureInjective(BuildReport(id, s.nodes[id]), BuildReport(id, s.nodes[id]));
  }

  lemma HopKeepsLink(t: Hierarchy, s: Plant, id: Id, c: Id)
    requires Fits(t, s) && id in t.up && t.up[id] != id && c in s.nodes
    requires Linked(t, s, c)
    ensures Linked(t, Hop(s, id, t.up[id]), c)
  {
    hide Signature, SignedReady, SignedBlocking;
    if c == id {
      HopLinksSender(t, s, id);
    } else if c in t.up {
      var q, s2 := t.up[c], Hop(s, id, t.up[id]);
      assert s2.nodes[c].lastSig == s.nodes[c].lastSig;
      assert Cached(s2.nodes[q].childReady, c) == Cached(s.nodes[q].childReady, c);
      assert Cached(s2.nodes[q].childBlock, c) == Cached(s.nodes[q].childBlock, c);
    }
  }

  lemma HopKeepsLinks(t: Hierarchy, s: Plant, id: Id)
    requires Fits(t, s) && id in t.up && t.up[id] != id
    requires LinksHold(t, s)
    ensures LinksHold(t, Hop(s, id, t.up[id]))
  {
    var s2 := Hop(s, id, t.up[id]);
    forall c | c in s2.nodes ensures Linked(t, s2, c) { HopKeepsLink(t, s, id, c); }
    forall c | c in s2.nodes ensures OnlyKids(t, s2, c) { assert OnlyKids(t, s, c); }
  }

  /** Storing a report that was let out restores its sender and unsettles, at
      most, the parent that stored it. */
  lemma HopMovesUp(t: Hierarchy, s: Plant, id: Id, dirty: set<Id>)
    requires Fits(t, s) && id in t.up && t.up[id] != id
    requires Consistent(t, s, {id}, dirty + {id})
    requires s.nodes[id] == Aggregate(s.nodes[id])
    ensures Consistent(t, Hop(s, id, t.up[id]), {t.up[id]}, (dirty - {id}) + {t.up[id]})
  {
    hide LinksHold, Settled, Published, Hop, Aggregate;
    HopKeepsLinks(t, s, id);
    forall n | n in s.nodes
      ensures n != t.up[id] ==> Settled(Hop(s, id, t.up[id]).nodes[n])
      ensures n != t.up[id] && n !in dirty - {id} ==> Published(n, Hop(s, id, t.up[id]).nodes[n])
    {
      if n == id {
        SenderSettles(t, s, id);
      } else {
        assert n != t.up[id] ==> Hop(s, id, t.up[id]).nodes[n] == s.nodes[n];
      }
    }
  }

  lemma SenderSettles(t: Hierarchy, s: Plant, id: Id)
    requires Fits(t, s) && id in t.up && t.up[id] != id && s.nodes[id] == Aggregate(s.nodes[id])
    ensures Settled(Hop(s, id, t.up[id]).nodes[id]) && Published(id, Hop(s, id, t.up[id]).nodes[id])
  {
    hide Signature;
    SignatureInjective(BuildReport(id, s.nodes[id]), BuildReport(id, s.nodes[id]));
  }

  lemma EmitKeepsLink(t: Hierarchy, s: Plant, id: Id, c: Id)
    requires Fits(t, s) && id in s.nodes && id !in t.up && c in s.nodes
    requires Linked(t, s, c) && OnlyKids(t, s, c)
    ensures Linked(t, Emit(s, id), c) && OnlyKids(t, Emit(s, id), c)
  {
    var s1 := Emit(s, id);
    assert s1.nodes[c].childBlock == s.nodes[c].childBlock;
    if c in t.up {
      var p := t.up[c];
      assert s1.nodes[c].lastSig == s.nodes[c].lastSig;
      assert s1.nodes[p].childReady == s.nodes[p].childReady;
      assert s1.nodes[p].childBlock == s.nodes[p].childBlock;
    }
  }

  lemma EmitAtTop(t: Hierarchy, s: Plant, id: Id, dirty: set<Id>)
    requires Fits(t, s) && id in s.nodes && id !in t.up
    requires Consistent(t, s, {id}, dirty + {id})
    requires s.nodes[id] == Aggregate(s.nodes[id])
    ensures Consistent(t, Emit(s, id), {}, dirty - {id})
  {
    var s1, r := Emit(s, id), BuildReport(id, s.nodes[id]);
    SignatureInjective(r, r);
    forall c | c in s1.nodes ensures Linked(t, s1, c) && OnlyKids(t, s1, c) { EmitKeepsLink(t, s, id, c); }
    assert s1.nodes[id] == s.nodes[id].(lastSig := Signature(r));
    forall n | n in s1.nodes && n !in dirty - {id} ensures Published(n, s1.nodes[n]) {
      assert n != id ==> s1.nodes[n] == s.nodes[n];
    }
  }

  lemma SuppressedSettles(t: Hierarchy, s: Plant, id: Id, dirty: set<Id>)
    requires Fits(t, s) && id in s.nodes && Unchanged(s, id)
    requires Consistent(t, s, {id}, dirty + {id})
    requires s.nodes[id] == Aggregate(s.nodes[id])
    ensures Consistent(t, s, {}, dirty - {id})
  {
    SignatureInjective(BuildReport(id, s.nodes[id]), BuildReport(id, s.nodes[id]));
  }

  lemma {:induction false} PublishSettles(t: Hierarchy, s: Plant, id: Id, dirty: set<Id>)
    requires Fits(t, s) && id in s.nodes
    requires Consistent(t, s, {id}, dirty + {id})
    requires s.nodes[id] == Aggregate(s.nodes[id])
    ensures Consistent(t, Publish(t, s, id), {}, dirty - {id})
    decreases t.depth[id]
  {
    if Unchanged(s, id) {
      SuppressedSettles(t, s, id, dirty);
    } else if id in t.up {
      var p := t.up[id];
      assert t.depth[p] < t.depth[id];
      HopMovesUp(t, s, id, dirty);
      var s2 := Hop(s, id, p);
      RefreshKeepsLinks(t, s2, p, {p}, (dirty - {id}) + {p});
      assert {p} + {p} == {p} && (dirty - {id}) + {p} + {p} == (dirty - {id}) + {p};
      PublishSettles(t, Refresh(s2, p), p, dirty - {id});
    } else {
      EmitAtTop(t, s, id, dirty);
    }
  }

  /** A changed node may be in any disagreement with its parent and its last
      signature: once its report has climbed as far as it goes, every node agrees. */
  lemma RecomputeSettles(t: Hierarchy, s: Plant, id: Id, dirty: set<Id>)
    requires Fits(t, s) && id in s.nodes
    requires Consistent(t, s, {id}, dirty + {id})
    ensures Consistent(t, Recompute(t, s, id), {}, dirty - {id})
  {
    RefreshKeepsLinks(t, s, id, {id}, dirty + {id});
    assert {id} + {id} == {id} && dirty + {id} + {id} == dirty + {id};
    PublishSettles(t, Refresh(s, id), id, dirty);
  }

  lemma SameCore(s: Plant, id: Id, n: Node, trace: seq<ProcessReport>)
    requires id in s.nodes && n.core == s.nodes[id].core
    ensures Cores(Plant(s.nodes[id := n], trace)) == Cores(s)
  {
  }

  lemma LocalStepsKeepCores(s: Plant, id: Id, r: ProcessReport)
    requires id in s.nodes
    ensures Cores(Refresh(s, id)) == Cores(s)
    ensures Cores(Emit(s, id)) == Cores(s)
    ensures Cores(Receive(s, id, r)) == Cores(s)
  {
    hide Cores, Signature, BuildReport;
    SameCore(s, id, Refresh(s, id).nodes[id], s.trace);
    SameCore(s, id, Emit(s, id).nodes[id], Emit(s, id).trace);
    SameCore(s, id, Receive(s, id, r).nodes[id], s.trace);
  }

  lemma {:induction false} PublishKeepsCores(t: Hierarchy, s: Plant, id: Id)
    requires Fits(t, s) && id in s.nodes
    ensures Cores(Publish(t, s, id)) == Cores(s)
    decreases t.depth[id]
  {
    if !Unchanged(s, id) {
      var r := BuildReport(id, s.nodes[id]);
      LocalStepsKeepCores(s, id, r);
      if id in t.up {
        var p := t.up[id];
        assert t.depth[p] < t.depth[id];
        LocalStepsKeepCores(Emit(s, id), p, r);
        LocalStepsKeepCores(Receive(Emit(s, id), p, r), p, r);
        PublishKeepsCores(t, Refresh(Receive(Emit(s, id), p, r), p), p);
      }
    }
  }

  lemma RecomputeKeepsCores(t: Hierarchy, s: Plant, id: Id)
    requires Fits(t, s) && id in s.nodes
    ensures Cores(Recompute(t, s, id)) == Cores(s)
  {
    LocalStepsKeepCores(s, id, BuildReport(id, s.nodes[id]));
    PublishKeepsCores(t, Refresh(s, id), id);
  }
}
