/** How many rounds a plant needs to become ready, and how far a fault travels. */
module PlantProgress {
  import opened PlantModel
  import opened PlantInvariants
  import opened PlantIdeal
  import opened PlantTheorems

  // ---- Rank: the rounds still needed ----

  function Max(a: nat, b: nat): nat { if a < b then b else a }

  function OwnRounds(c: Core): nat { if c.pos < |c.plan| then |c.plan| - c.pos else 1 }

  /** Nothing for a ready node; otherwise its own remaining steps, after its
      slowest child. */
  ghost function Rank(t: Hierarchy, c: CoreMap, n: Id): nat
    requires Covers(t, c) && n in c
    decreases t.height - t.depth[n], |t.kids[n]| + 1
  {
    if c[n].ready then 0 else OwnRounds(c[n]) + MaxRank(t, c, n, |t.kids[n]|)
  }

  /** The largest rank among the first k children of n. */
  ghost function MaxRank(t: Hierarchy, c: CoreMap, n: Id, k: nat): nat
    requires Covers(t, c) && n in c && k <= |t.kids[n]|
    decreases t.height - t.depth[n], k
  {
    if k == 0 then 0
    else
      KidIsLower(t, n, k - 1);
      Max(MaxRank(t, c, n, k - 1), Rank(t, c, t.kids[n][k - 1]))
  }

  lemma {:induction false} RankIsLocal(t: Hierarchy, c: CoreMap, c': CoreMap, n: Id)
    requires Covers(t, c) && Covers(t, c') && n in c && AgreeBelow(t, c, c', n)
    ensures Rank(t, c, n) == Rank(t, c', n)
    decreases t.height - t.depth[n], |t.kids[n]| + 1
  {
    assert InSubtree(t, n, n);
    MaxRankIsLocal(t, c, c', n, |t.kids[n]|);
  }

  lemma {:induction false} MaxRankIsLocal(t: Hierarchy, c: CoreMap, c': CoreMap, n: Id, k: nat)
    requires Covers(t, c) && Covers(t, c') && n in c && k <= |t.kids[n]|
    requires AgreeBelow(t, c, c', n)
    ensures MaxRank(t, c, n, k) == MaxRank(t, c', n, k)
    decreases t.height - t.depth[n], k
  {
    if k > 0 {
      var kid := t.kids[n][k - 1];
      KidIsLower(t, n, k - 1);
      assert InSubtree(t, kid, n);
      AgreeBelowDescends(t, c, c', n, kid);
      MaxRankIsLocal(t, c, c', n, k - 1);
      RankIsLocal(t, c, c', kid);
    }
  }

  lemma {:induction false} ReadyKidsHaveNoRank(t: Hierarchy, c: CoreMap, n: Id, k: nat)
    requires Covers(t, c) && n in c && k <= |t.kids[n]|
    requires KidsReady(t, c, n)
    ensures MaxRank(t, c, n, k) == 0
    decreases k
  {
    if k > 0 {
      assert t.kids[n][k - 1] in t.kids[n];
      ReadyKidsHaveNoRank(t, c, n, k - 1);
    }
  }

  // ---- Stalling ----

  /** A node below n that is not ready and can not move: faulted, or stopped by
      something below it. */
  ghost predicate Stalled(t: Hierarchy, c: CoreMap, n: Id) {
    exists m | m in c :: InSubtree(t, m, n) && !c[m].ready && !Unhindered(t, c, m)
  }

  lemma StalledFromKid(t: Hierarchy, c: CoreMap, n: Id, kid: Id)
    requires n in t.kids && kid in t.kids[n] && Stalled(t, c, kid)
    ensures Stalled(t, c, n)
  {
    var m :| m in c && InSubtree(t, m, kid) && !c[m].ready && !Unhindered(t, c, m);
    assert InSubtree(t, kid, n);
    SubtreeTransitive(t, m, kid, n);
  }

  /** What happens below a child, when its parent passes the command on, is what
      the command does to the child alone. */
  lemma KidAdvancesAlone(t: Hierarchy, c: CoreMap, n: Id, i: nat)
    requires Covers(t, c) && n in c && i < |t.kids[n]| && t.kids[n][i] in c
    requires Unhindered(t, c, n) && !KidsReady(t, c, n)
    ensures AgreeBelow(t, AdvanceAll(t, c, t.kids[n][i]), AdvanceAll(t, c, n), t.kids[n][i])
  {
    var kid := t.kids[n][i];
    assert kid in t.kids[n];
    forall d | d in c && InSubtree(t, d, kid) ensures Moves(t, c, d, n) <==> Moves(t, c, d, kid) {
      MovesThroughKid(t, c, d, n, kid);
    }
  }

  lemma {:induction false} MovesThroughKid(t: Hierarchy, c: CoreMap, d: Id, n: Id, kid: Id)
    requires Covers(t, c) && d in c && n in c && kid in t.kids[n] && InSubtree(t, d, kid)
    requires Unhindered(t, c, n) && !KidsReady(t, c, n)
    ensures Reached(t, c, d, n) <==> Reached(t, c, d, kid)
    decreases t.depth[d]
  {
    if d != kid {
      KidNotAbove(t, n, kid);
      MovesThroughKid(t, c, t.up[d], n, kid);
    } else {
      assert t.depth[t.up[kid]] < t.depth[kid];
    }
  }

  lemma ReadyNodeIdle(t: Hierarchy, c: CoreMap, n: Id)
    requires Covers(t, c) && n in c && ReadyClosed(t, c) && c[n].ready
    ensures AdvanceAll(t, c, n) == c
  {
    AdvanceByKids(t, c, n);
    PromoteProgress(c[n]);
  }

  lemma OwnStepLowersRank(t: Hierarchy, c: CoreMap, n: Id)
    requires Covers(t, c) && n in c && !c[n].ready && KidsReady(t, c, n)
    ensures Rank(t, c[n := Promote(c[n])], n) == Rank(t, c, n) - 1
  {
    var c' := c[n := Promote(c[n])];
    forall k | k in t.kids[n] ensures c'[k].ready {
      assert t.depth[t.up[k]] < t.depth[k];
    }
    ReadyKidsHaveNoRank(t, c, n, |t.kids[n]|);
    ReadyKidsHaveNoRank(t, c', n, |t.kids[n]|);
  }

  lemma SomeKidHasRank(t: Hierarchy, c: CoreMap, n: Id)
    requires Covers(t, c) && n in c && !KidsReady(t, c, n)
    ensures MaxRank(t, c, n, |t.kids[n]|) > 0
  {
    var k :| k in t.kids[n] && !c[k].ready;
    var i :| 0 <= i < |t.kids[n]| && t.kids[n][i] == k;
    MaxRankBounds(t, c, n, |t.kids[n]|, i);
  }

  /** One round lowers the rank of a node that is not ready by exactly one. */
  lemma {:induction false} AdvanceLowersRank(t: Hierarchy, c: CoreMap, n: Id)
    requires Covers(t, c) && n in c && ReadyClosed(t, c)
    requires !c[n].ready && !Stalled(t, c, n)
    ensures Rank(t, AdvanceAll(t, c, n), n) == Rank(t, c, n) - 1
    decreases t.height - t.depth[n], |t.kids[n]| + 1
  {
    hide ReadyClosed, Stalled, AdvanceAll, KidsReady, Unhindered;
    NotStalledHere(t, c, n);
    AdvanceByKids(t, c, n);
    if KidsReady(t, c, n) {
      OwnStepLowersRank(t, c, n);
    } else {
      WaitingNodeStays(t, c, n);
      AdvanceLowersKids(t, c, n, |t.kids[n]|);
      SomeKidHasRank(t, c, n);
    }
  }

  lemma NotStalledHere(t: Hierarchy, c: CoreMap, n: Id)
    requires n in c && !c[n].ready && !Stalled(t, c, n)
    ensures Unhindered(t, c, n)
  {
    assert InSubtree(t, n, n);
  }

  lemma WaitingNodeStays(t: Hierarchy, c: CoreMap, n: Id)
    requires Covers(t, c) && n in c && !KidsReady(t, c, n)
    ensures AdvanceAll(t, c, n)[n] == c[n]
  {
  }

  lemma {:induction false} MaxRankBounds(t: Hierarchy, c: CoreMap, n: Id, k: nat, i: nat)
    requires Covers(t, c) && n in c && i < k <= |t.kids[n]| && t.kids[n][i] in c
    ensures Rank(t, c, t.kids[n][i]) <= MaxRank(t, c, n, k)
    ensures !c[t.kids[n][i]].ready ==> Rank(t, c, t.kids[n][i]) > 0
    decreases k
  {
    if i < k - 1 {
      MaxRankBounds(t, c, n, k - 1, i);
    }
  }

  function Less(r: nat): nat { if r == 0 then 0 else r - 1 }

  lemma {:induction false} AdvanceLowersKids(t: Hierarchy, c: CoreMap, n: Id, k: nat)
    requires Covers(t, c) && n in c && ReadyClosed(t, c) && k <= |t.kids[n]|
    requires !Stalled(t, c, n) && Unhindered(t, c, n) && !KidsReady(t, c, n)
    ensures MaxRank(t, AdvanceAll(t, c, n), n, k) == Less(MaxRank(t, c, n, k))
    decreases t.height - t.depth[n], k
  {
    hide ReadyClosed, Stalled, AdvanceAll, KidsReady, Unhindered, AgreeBelow;
    if k > 0 {
      var kid := t.kids[n][k - 1];
      KidIsLower(t, n, k - 1);
      assert kid in t.kids[n];
      AdvanceLowersKids(t, c, n, k - 1);
      KidAdvancesAlone(t, c, n, k - 1);
      RankIsLocal(t, AdvanceAll(t, c, kid), AdvanceAll(t, c, n), kid);
      if c[kid].ready {
        ReadyNodeIdle(t, c, kid);
      } else {
        if Stalled(t, c, kid) {
          StalledFromKid(t, c, n, kid);
        }
        AdvanceLowersRank(t, c, kid);
      }
    }
  }

  // ---- The driving loop ----

  lemma AdvanceKeepsFaults(t: Hierarchy, c: CoreMap, id: Id, n: Id)
    requires Covers(t, c) && id in c && n in c
    ensures var r := AdvanceAll(t, c, id);
      && ImpactBelow(t, r, n) == ImpactBelow(t, c, n)
      && r[n].fault == c[n].fault
      && (c[n].ready ==> r[n].ready)
      && (r[n].ready && !c[n].ready ==> Unhindered(t, c, n))
  {
    hide Reached, KidsReady, InSubtree, Promote, Topology.Valid;
    PromoteProgress(c[n]);
    var r := AdvanceAll(t, c, id);
    if ImpactBelow(t, c, n) {
      var d :| d in c && InSubtree(t, d, n) && OwnImpact(c[d]);
      PromoteProgress(c[d]);
      assert OwnImpact(r[d]);
    }
    if ImpactBelow(t, r, n) {
      var d :| d in r && InSubtree(t, d, n) && OwnImpact(r[d]);
      PromoteProgress(c[d]);
      assert OwnImpact(c[d]);
    }
  }

  /** A round neither stalls nor unstalls anything. */
  lemma AdvanceKeepsStall(t: Hierarchy, c: CoreMap, id: Id, n: Id)
    requires Covers(t, c) && id in c
    ensures Stalled(t, AdvanceAll(t, c, id), n) == Stalled(t, c, n)
  {
    var r := AdvanceAll(t, c, id);
    if Stalled(t, c, n) {
      var m :| m in c && InSubtree(t, m, n) && !c[m].ready && !Unhindered(t, c, m);
      AdvanceKeepsFaults(t, c, id, m);
      assert !r[m].ready && !Unhindered(t, r, m);
    }
    if Stalled(t, r, n) {
      var m :| m in r && InSubtree(t, m, n) && !r[m].ready && !Unhindered(t, r, m);
      AdvanceKeepsFaults(t, c, id, m);
      assert !c[m].ready && !Unhindered(t, c, m);
    }
  }

  lemma ReadyNotStalled(t: Hierarchy, c: CoreMap, n: Id)
    requires Covers(t, c) && n in c && ReadyClosed(t, c) && c[n].ready
    ensures !Stalled(t, c, n)
  {
    if Stalled(t, c, n) {
      var m :| m in c && InSubtree(t, m, n) && !c[m].ready && !Unhindered(t, c, m);
      ReadyDownward(t, c, m, n);
    }
  }

  /** The loop ends with a ready node iff nothing below it is stalled and its
      rank does not exceed the rounds it may use. */
  lemma {:induction false} LoopReaches(t: Hierarchy, s: Plant, root: Id, tries: nat)
    requires Good(t, s) && root in s.nodes
    ensures var s' := RunToReady(t, s, root, tries);
      && Good(t, s')
      && (s'.nodes[root].core.ready <==> !Stalled(t, Cores(s), root) && Rank(t, Cores(s), root) <= tries)
    decreases tries
  {
    hide Good, Cores, AdvanceAll, Stalled, Advance, Rank, Execute, ExecuteAll;
    var c := Cores(s);
    GoodParts(t, s, root);
    RankZero(t, c, root);
    if c[root].ready {
      ReadyNotStalled(t, c, root);
    } else if tries > 0 {
      RoundRefines(t, s, root);
      LoopReaches(t, Advance(t, s, root), root, tries - 1);
      AdvanceKeepsStall(t, c, root, root);
      if !Stalled(t, c, root) {
        AdvanceLowersRank(t, c, root);
      }
    }
  }

  lemma RankZero(t: Hierarchy, c: CoreMap, n: Id)
    requires Covers(t, c) && n in c
    ensures Rank(t, c, n) == 0 <==> c[n].ready
  {
  }

  lemma RoundRefines(t: Hierarchy, s: Plant, n: Id)
    requires Good(t, s) && n in s.nodes
    ensures Good(t, Advance(t, s, n))
    ensures Cores(Advance(t, s, n)) == AdvanceAll(t, Cores(s), n)
  {
    hide Consistent, ReadyClosed, Cores, Advance, AdvanceAll;
    ExecuteRefines(t, s, AdvanceCmd(n));
  }

  lemma GoodParts(t: Hierarchy, s: Plant, n: Id)
    requires Good(t, s) && n in s.nodes
    ensures Fits(t, s) && Covers(t, Cores(s)) && ReadyClosed(t, Cores(s))
    ensures Cores(s)[n] == s.nodes[n].core
  {
  }

  /** From any state a run can reach, the controller's hundred rounds make the
      node ready iff no node below it is at once not ready and hindered, and its
      rank is at most a hundred. */
  lemma RunToReadyExact(t: Hierarchy, s: Plant, cmds: seq<Command>, root: Id)
    requires Initial(t, s) && root in s.nodes
    ensures var s1 := Run(t, s, cmds);
      RunToReady(t, s1, root, MAX_ROUNDS).nodes[root].core.ready
      <==> !Stalled(t, Cores(s1), root) && Rank(t, Cores(s1), root) <= 100
  {
    InitialIsGood(t, s);
    RunRefines(t, s, cmds);
    LoopReaches(t, Run(t, s, cmds), root, MAX_ROUNDS);
  }

  ghost predicate FaultFree(t: Hierarchy, c: CoreMap, n: Id) {
    forall d | d in c && InSubtree(t, d, n) :: c[d].fault == NoFault
  }

  lemma FaultFreeIsNotStalled(t: Hierarchy, c: CoreMap, n: Id)
    requires Covers(t, c) && n in c
    ensures FaultFree(t, c, n) ==> !Stalled(t, c, n)
  {
    if Stalled(t, c, n) && FaultFree(t, c, n) {
      var m :| m in c && InSubtree(t, m, n) && !c[m].ready && !Unhindered(t, c, m);
      assert c[m].fault == NoFault;
      var d :| d in c && InSubtree(t, d, m) && OwnImpact(c[d]);
      SubtreeTransitive(t, d, m, n);
      assert false;
    }
  }

  /** Without any fault below it, a node that is not ready is one round closer
      after each advance. */
  lemma FaultFreeProgress(t: Hierarchy, s: Plant, n: Id)
    requires Good(t, s) && n in s.nodes
    ensures !s.nodes[n].core.ready && FaultFree(t, Cores(s), n) ==>
      Rank(t, Cores(Advance(t, s, n)), n) == Rank(t, Cores(s), n) - 1
  {
    hide Stalled, FaultFree, Advance, AdvanceAll, Rank, Consistent, ReadyClosed, Topology.Valid;
    var c := Cores(s);
    ExecuteRefines(t, s, AdvanceCmd(n));
    FaultFreeIsNotStalled(t, c, n);
    if !c[n].ready && !Stalled(t, c, n) {
      AdvanceLowersRank(t, c, n);
    }
  }

  // ---- How far a change travels ----

  /** The nodes from n up to its root. */
  ghost function PathUp(t: Hierarchy, n: Id): (p: seq<Id>)
    requires n in t.kids
    decreases t.depth[n]
  {
    if n in t.up then
      assert t.depth[t.up[n]] < t.depth[n];
      [n] + PathUp(t, t.up[n])
    else [n]
  }

  function Origins(trace: seq<ProcessReport>): (o: seq<Id>)
    ensures |o| == |trace|
  {
    seq(|trace|, i requires 0 <= i < |trace| => trace[i].origin)
  }

  lemma OriginsAppend(a: seq<ProcessReport>, b: seq<ProcessReport>)
    ensures Origins(a + b) == Origins(a) + Origins(b)
  {
  }

  /** Exactly the first k nodes of the path from n upward published, in order. */
  ghost predicate ReportsClimb(t: Hierarchy, s: Plant, s': Plant, n: Id, k: nat)
    requires n in t.kids
  {
    && k <= |PathUp(t, n)|
    && s.trace <= s'.trace
    && Origins(s'.trace[|s.trace|..]) == PathUp(t, n)[..k]
  }

  /** Only the first k nodes of the path, and the next one, changed. */
  ghost predicate SameBeyond(t: Hierarchy, s: Plant, s': Plant, n: Id, k: nat)
    requires Fits(t, s) && Fits(t, s') && n in s.nodes
  {
    forall d | d in s.nodes && d !in Upto(PathUp(t, n), k + 1) :: s'.nodes[d] == s.nodes[d]
  }

  function Upto(path: seq<Id>, k: nat): seq<Id> { if k <= |path| then path[..k] else path }

  lemma FirstOfPath(t: Hierarchy, n: Id, k: nat)
    requires n in t.kids && k > 0
    ensures n in Upto(PathUp(t, n), k)
  {
    assert PathUp(t, n)[0] == n;
    assert Upto(PathUp(t, n), k)[0] == n;
  }

  lemma PublishHops(t: Hierarchy, s: Plant, id: Id)
    requires Fits(t, s) && id in s.nodes
    ensures Unchanged(s, id) ==> Publish(t, s, id) == s
    ensures !Unchanged(s, id) && id !in t.up ==> Publish(t, s, id) == Emit(s, id)
    ensures id in t.up ==> t.up[id] in s.nodes && t.up[id] in t.depth && t.depth[t.up[id]] < t.depth[id]
    ensures !Unchanged(s, id) && id in t.up ==>
      && Fits(t, Refresh(Hop(s, id, t.up[id]), t.up[id]))
      && Publish(t, s, id) == Publish(t, Refresh(Hop(s, id, t.up[id]), t.up[id]), t.up[id])
  {
    hide Unchanged, Emit, Refresh;
    assert id in t.up ==> t.depth[t.up[id]] < t.depth[id];
  }

  lemma {:induction false} PublishTravels(t: Hierarchy, s: Plant, id: Id) returns (k: nat)
    requires Fits(t, s) && id in s.nodes
    ensures ReportsClimb(t, s, Publish(t, s, id), id, k)
    ensures SameBeyond(t, s, Publish(t, s, id), id, k)
    decreases t.depth[id]
  {
    hide ReportsClimb, SameBeyond, Publish, Hop, Refresh, Emit, Unchanged, Topology.Valid;
    PublishHops(t, s, id);
    if Unchanged(s, id) {
      k := 0;
      NothingTravels(t, s, id);
    } else if id in t.up {
      var p := t.up[id];
      var s2 := Refresh(Hop(s, id, p), p);
      var j := PublishTravels(t, s2, p);
      k := j + 1;
      HopPublishes(t, s, Publish(t, s2, p), id, j);
      HopChanges(t, s, Publish(t, s2, p), id, j);
    } else {
      k := 1;
      TopPublishes(t, s, id);
    }
  }

  lemma NothingTravels(t: Hierarchy, s: Plant, id: Id)
    requires Fits(t, s) && id in s.nodes
    ensures ReportsClimb(t, s, s, id, 0) && SameBeyond(t, s, s, id, 0)
  {
    assert s.trace[|s.trace|..] == [];
  }

  lemma TopPublishes(t: Hierarchy, s: Plant, id: Id)
    requires Fits(t, s) && id in s.nodes && id !in t.up
    ensures ReportsClimb(t, s, Emit(s, id), id, 1) && SameBeyond(t, s, Emit(s, id), id, 1)
  {
    FirstOfPath(t, id, 2);
    var r := BuildReport(id, s.nodes[id]);
    assert (s.trace + [r])[|s.trace|..] == [r];
  }

  lemma HopPublishes(t: Hierarchy, s: Plant, s': Plant, id: Id, j: nat)
    requires Fits(t, s) && id in t.up && t.up[id] != id
    requires ReportsClimb(t, Refresh(Hop(s, id, t.up[id]), t.up[id]), s', t.up[id], j)
    ensures ReportsClimb(t, s, s', id, j + 1)
  {
    var p, r := t.up[id], BuildReport(id, s.nodes[id]);
    assert Refresh(Hop(s, id, p), p).trace == s.trace + [r];
    OriginsExtend(s.trace, r, s'.trace, PathUp(t, p), j);
  }

  lemma OriginsExtend(trace: seq<ProcessReport>, r: ProcessReport, trace': seq<ProcessReport>, rest: seq<Id>, j: nat)
    requires j <= |rest| && trace + [r] <= trace'
    requires Origins(trace'[|trace| + 1..]) == rest[..j]
    ensures trace <= trace'
    ensures Origins(trace'[|trace|..]) == ([r.origin] + rest)[..j + 1]
  {
    assert trace'[|trace|] == (trace + [r])[|trace|];
    assert trace'[|trace|..] == [r] + trace'[|trace| + 1..];
    OriginsAppend([r], trace'[|trace| + 1..]);
  }

  lemma HopChanges(t: Hierarchy, s: Plant, s': Plant, id: Id, j: nat)
    requires Fits(t, s) && Fits(t, s') && id in t.up && t.up[id] != id
    requires SameBeyond(t, Refresh(Hop(s, id, t.up[id]), t.up[id]), s', t.up[id], j)
    ensures SameBeyond(t, s, s', id, j + 1)
  {
    hide Signature, BuildReport, Aggregate, Topology.Valid;
    var p := t.up[id];
    var s2, rest := Refresh(Hop(s, id, p), p), PathUp(t, p);
    assert PathUp(t, id) == [id] + rest;
    assert Upto(PathUp(t, id), j + 2) == [id] + Upto(rest, j + 1);
    FirstOfPath(t, p, j + 1);
    forall d | d in s.nodes && d !in Upto(PathUp(t, id), j + 2) ensures s'.nodes[d] == s.nodes[d] {
      assert d !in Upto(rest, j + 1) && d != id && d != p;
      assert s2.nodes[d] == s.nodes[d];
    }
  }

  lemma ChangeTravels(t: Hierarchy, s: Plant, id: Id, c: Core) returns (k: nat)
    requires Fits(t, s) && id in s.nodes
    ensures ReportsClimb(t, s, Recompute(t, SetCore(s, id, c), id), id, k)
    ensures SameBeyond(t, s, Recompute(t, SetCore(s, id, c), id), id, k)
  {
    var s1 := Refresh(SetCore(s, id, c), id);
    k := PublishTravels(t, s1, id);
    FirstOfPath(t, id, k + 1);
    SetCoreChanges(s, id, c);
    forall d | d in s.nodes && d !in Upto(PathUp(t, id), k + 1) ensures s1.nodes[d] == s.nodes[d] {
      assert d != id;
    }
  }

  /** Failing a node or clearing its fault: reports climb a prefix of the path to
      the root, each node of it publishing once; nothing beyond that prefix and
      the node just above it changes, in particular nothing off the path; and
      still no node anywhere is left stale. */
  lemma FaultLocality(t: Hierarchy, s: Plant, cmd: Command) returns (k: nat)
    requires Good(t, s) && (cmd.FailCmd? || cmd.ClearCmd?) && cmd.id in s.nodes
    ensures ReportsClimb(t, s, Execute(t, s, cmd), cmd.id, k)
    ensures SameBeyond(t, s, Execute(t, s, cmd), cmd.id, k)
    ensures forall d | d in s.nodes && !InSubtree(t, cmd.id, d) :: Execute(t, s, cmd).nodes[d] == s.nodes[d]
    ensures Good(t, Execute(t, s, cmd))
  {
    hide Consistent, ReadyClosed, Cores, ReportsClimb, Execute, ExecuteAll;
    ExecuteRefines(t, s, cmd);
    k := FaultTravels(t, s, cmd);
    forall d | d in s.nodes && !InSubtree(t, cmd.id, d)
      ensures d !in Upto(PathUp(t, cmd.id), k + 1)
    {
      PathIsAncestors(t, cmd.id, d);
    }
  }

  lemma FaultTravels(t: Hierarchy, s: Plant, cmd: Command) returns (k: nat)
    requires Fits(t, s) && (cmd.FailCmd? || cmd.ClearCmd?) && cmd.id in s.nodes
    ensures ReportsClimb(t, s, Execute(t, s, cmd), cmd.id, k)
    ensures SameBeyond(t, s, Execute(t, s, cmd), cmd.id, k)
  {
    var c := s.nodes[cmd.id].core;
    if cmd.FailCmd? {
      k := ChangeTravels(t, s, cmd.id, c.(fault := WorstOf(c.fault, cmd.severity)));
    } else if c.fault != NoFault {
      k := ChangeTravels(t, s, cmd.id, c.(fault := NoFault));
    } else {
      k := 0;
      NothingTravels(t, s, cmd.id);
    }
  }

  /** No node is twice on a path, so none publishes twice. */
  lemma {:induction false} PathHasNoRepeats(t: Hierarchy, n: Id, i: nat, j: nat)
    requires n in t.kids && i < j < |PathUp(t, n)|
    ensures PathUp(t, n)[i] != PathUp(t, n)[j]
    decreases t.depth[n]
  {
    assert n in t.up;
    var p := t.up[n];
    assert t.depth[p] < t.depth[n];
    if i > 0 {
      PathHasNoRepeats(t, p, i - 1, j - 1);
    } else {
      assert PathUp(t, n)[j] == PathUp(t, p)[j - 1];
      assert PathUp(t, n)[j] in PathUp(t, p);
      PathIsAncestors(t, p, n);
      if PathUp(t, n)[j] == n {
        SubtreeDeeper(t, p, n);
      }
    }
  }

  lemma {:induction false} PathIsAncestors(t: Hierarchy, n: Id, d: Id)
    requires n in t.kids
    ensures d in PathUp(t, n) <==> InSubtree(t, n, d)
    decreases t.depth[n]
  {
    if n in t.up {
      assert t.depth[t.up[n]] < t.depth[n];
      PathIsAncestors(t, t.up[n], d);
    }
  }
}
