/** What a node of the plant shows after a run, in terms of its plan and of the
    commands alone. */
module PlantHistory {
  import opened PlantModel
  import opened PlantInvariants
  import opened PlantIdeal
  import opened PlantTheorems

  // ---- One advance ----

  /** What stays of a node in an advance. */
  predicate SameButStep(c: Core, c': Core) {
    && c'.critical == c.critical && c'.plan == c.plan
    && c'.working == c.working && c'.fault == c.fault
  }

  /** A node with a fault, or with something that stops production in its subtree. */
  ghost predicate Halted(t: Hierarchy, c: CoreMap, x: Id)
    requires x in c
  {
    c[x].fault != NoFault || exists e | e in c && InSubtree(t, e, x) :: StopsProduction(c[e])
  }

  ghost predicate WaitsForChild(t: Hierarchy, c: CoreMap, x: Id)
    requires Covers(t, c) && x in c
  {
    exists k | k in t.kids[x] :: !c[k].ready
  }

  /** The nodes from d upwards to n, both included. */
  ghost predicate Between(t: Hierarchy, d: Id, x: Id, n: Id) { InSubtree(t, d, x) && InSubtree(t, x, n) }

  /** An advance of n makes d take a step of its own: d is below n, none of the nodes
      from d up to n is halted, all above d wait for a child, and d for none. */
  ghost predicate TakesStep(t: Hierarchy, c: CoreMap, d: Id, n: Id)
    requires Covers(t, c) && d in c
  {
    && InSubtree(t, d, n) && !WaitsForChild(t, c, d)
    && forall x {:trigger Between(t, d, x, n)} | x in c && Between(t, d, x, n) ::
         !Halted(t, c, x) && (x != d ==> WaitsForChild(t, c, x))
  }

  lemma OnTheWay(t: Hierarchy, c: CoreMap, x: Id)
    requires Covers(t, c) && x in c
    ensures Unhindered(t, c, x) <==> !Halted(t, c, x)
    ensures KidsReady(t, c, x) <==> !WaitsForChild(t, c, x)
  {
    if e :| e in c && InSubtree(t, e, x) && StopsProduction(c[e]) {
      assert OwnImpact(c[e]);
    }
    if ImpactBelow(t, c, x) {
      var e :| e in c && InSubtree(t, e, x) && OwnImpact(c[e]);
      assert StopsProduction(c[e]);
    }
  }

  lemma BetweenSame(t: Hierarchy, x: Id, n: Id)
    requires Between(t, n, x, n)
    ensures x == n
  {
    if x != n {
      SubtreeDeeper(t, n, x);
      SubtreeDeeper(t, x, n);
    }
  }

  lemma {:induction false} ReachedIff(t: Hierarchy, c: CoreMap, d: Id, n: Id)
    requires Covers(t, c) && d in c
    ensures Reached(t, c, d, n) <==>
      InSubtree(t, d, n)
      && forall x {:trigger Between(t, d, x, n)} | x in c && x != d && Between(t, d, x, n) ::
           !Halted(t, c, x) && WaitsForChild(t, c, x)
    decreases t.depth[d]
  {
    hide Halted, WaitsForChild, Unhindered, KidsReady;
    if d == n {
      forall x | Between(t, d, x, n)
        ensures x == n
      {
        BetweenSame(t, x, n);
      }
    } else if d in t.up {
      var p := t.up[d];
      assert t.depth[p] < t.depth[d];
      ReachedIff(t, c, p, n);
      OnTheWay(t, c, p);
      forall x | x != d
        ensures Between(t, d, x, n) <==> Between(t, p, x, n)
      {
      }
      assert InSubtree(t, d, n) ==> Between(t, d, p, n) && Between(t, p, p, n) by {
        assert InSubtree(t, p, p);
      }
      if d in t.depth && Between(t, p, d, n) {
        SubtreeDeeper(t, p, d);
      }
    }
  }

  lemma MovesIff(t: Hierarchy, c: CoreMap, d: Id, n: Id)
    requires Covers(t, c) && d in c
    ensures Moves(t, c, d, n) <==> TakesStep(t, c, d, n)
  {
    hide Halted, WaitsForChild, Unhindered, KidsReady, Reached;
    ReachedIff(t, c, d, n);
    OnTheWay(t, c, d);
    assert InSubtree(t, d, n) ==> Between(t, d, d, n) by {
      assert InSubtree(t, d, d);
    }
  }

  /** An advance makes exactly those nodes take the next step of their plan that are
      not ready and whose way up to the addressed node is free. With the last step, or
      if there is none left, the node becomes ready and shows READY. A ready node, and
      every other one, stays. */
  lemma AdvanceTakesPlanStep(t: Hierarchy, s: Plant, id: Id, d: Id)
    requires Good(t, s) && id in s.nodes && d in s.nodes
    ensures var c, c' := s.nodes[d].core, Advance(t, s, id).nodes[d].core;
      var p, n := c.pos, |c.plan|;
      if TakesStep(t, Cores(s), d, id) && !c.ready then
        && SameButStep(c, c')
        && c'.pos == (if p + 1 <= n then p + 1 else p)
        && (if p + 1 < n then c'.step == c.plan[p] && !c'.ready else c'.step == Ready && c'.ready)
      else c' == c
  {
    hide Moves, TakesStep, Consistent, Topology.Valid;
    AdvanceRefines(t, s, id, {});
    MovesIff(t, Cores(s), d, id);
    assert Advance(t, s, id).nodes[d].core == Cores(Advance(t, s, id))[d];
    assert Cores(s)[d] == s.nodes[d].core;
  }

  /** Finishing n reaches d exactly if d is below n and all nodes from d up to n are
      working. */
  lemma {:induction false} WorkingChainIff(t: Hierarchy, c: CoreMap, d: Id, n: Id)
    requires Covers(t, c) && d in c
    ensures WorkingChain(t, c, d, n) <==>
      InSubtree(t, d, n) && forall x {:trigger Between(t, d, x, n)} | x in c && Between(t, d, x, n) :: c[x].working
    decreases t.depth[d]
  {
    assert InSubtree(t, d, d);
    assert InSubtree(t, d, n) ==> Between(t, d, d, n);
    if d == n {
      forall x | Between(t, d, x, n)
        ensures x == n
      {
        BetweenSame(t, x, n);
      }
    } else if d in t.up {
      var p := t.up[d];
      assert t.depth[p] < t.depth[d];
      WorkingChainIff(t, c, p, n);
      forall x | x != d
        ensures Between(t, d, x, n) <==> Between(t, p, x, n)
      {
      }
      if Between(t, p, d, n) {
        SubtreeDeeper(t, p, d);
      }
    }
  }

  // ---- Runs ----

  /** How the step shown follows from plan, position, readiness and work. */
  predicate Shows(c: Core) {
    && (!c.ready && c.pos == 0 ==> c.step == Unknown)
    && (!c.ready && c.pos > 0 ==> c.pos <= |c.plan| && c.step == c.plan[c.pos - 1])
    && (c.ready ==> c.pos >= |c.plan| && (c.step == Ready || c.step == Work || c.step == Done))
    && (c.working <==> c.ready && c.step == Work)
  }

  ghost predicate AllShow(c: CoreMap) { forall n | n in c :: Shows(c[n]) }

  lemma ExecuteShows(t: Hierarchy, c: CoreMap, cmd: Command, n: Id)
    requires Covers(t, c) && ReadyClosed(t, c) && AllShow(c) && n in c
    ensures Shows(ExecuteAll(t, c, cmd)[n])
  {
    hide ImpactBelow, Reached, KidsReady, Topology.Valid, ReadyClosed, InSubtree;
    assert Shows(c[n]);
    if cmd.StartCmd? && cmd.id in c && c[cmd.id].ready && InSubtree(t, n, cmd.id) {
      ReadyDownward(t, c, n, cmd.id);
    }
  }

  lemma {:induction false} RunAllShows(t: Hierarchy, c: CoreMap, cmds: seq<Command>)
    requires Covers(t, c) && ReadyClosed(t, c) && AllShow(c)
    ensures ReadyClosed(t, RunAll(t, c, cmds)) && AllShow(RunAll(t, c, cmds))
    decreases |cmds|
  {
    hide ReadyClosed, ExecuteAll, Shows, Topology.Valid;
    if cmds != [] {
      var front, cmd := cmds[..|cmds| - 1], cmds[|cmds| - 1];
      RunAllShows(t, c, front);
      ExecuteKeepsReadyClosed(t, RunAll(t, c, front), cmd);
      forall n | n in RunAll(t, c, cmds)
        ensures Shows(RunAll(t, c, cmds)[n])
      {
        ExecuteShows(t, RunAll(t, c, front), cmd, n);
      }
    }
  }

  /** After any run, a node that is not ready shows the plan step it took last, and
      UNKNOWN before the first; a ready one has come to the end of its plan and shows
      READY, WORK or DONE. It is working exactly if it shows WORK and is ready. */
  lemma StepAfterRun(t: Hierarchy, s: Plant, cmds: seq<Command>, n: Id)
    requires Initial(t, s) && n in s.nodes
    ensures Shows(Run(t, s, cmds).nodes[n].core)
  {
    hide Consistent, ReadyClosed, Run, RunAll, Topology.Valid;
    InitialIsGood(t, s);
    FreshShows(t, s);
    RunAllShows(t, Cores(s), cmds);
    CoreAfterRun(t, s, cmds, n);
  }

  lemma FreshShows(t: Hierarchy, s: Plant)
    requires Initial(t, s)
    ensures AllShow(Cores(s))
  {
  }

  // ---- Faults ----

  /** Some fault of this severity was injected into n and not cleared since. */
  ghost predicate Injected(cmds: seq<Command>, n: Id, severity: FaultLevel) {
    exists k: nat :: Uncleared(cmds, n, k) && cmds[k].severity == severity
  }

  /** After any run, a node holds BLOCKING exactly if that was injected and not
      cleared since, and ALARM exactly if that was and BLOCKING was not. */
  lemma FaultIsExact(t: Hierarchy, s: Plant, cmds: seq<Command>, n: Id)
    requires Initial(t, s) && n in s.nodes
    ensures var fault := Run(t, s, cmds).nodes[n].core.fault;
      && (fault == Blocking <==> Injected(cmds, n, Blocking))
      && (fault == Alarm <==> Injected(cmds, n, Alarm) && !Injected(cmds, n, Blocking))
  {
    hide Run, Topology.Valid, Uncleared;
    FaultIsWorstSinceClear(t, s, cmds, n);
  }

  /** A hard fault below a node stops it whatever is injected afterwards, until that
      very fault is cleared. */
  lemma HardFaultHolds(t: Hierarchy, s: Plant, cmds: seq<Command>, d: Id, n: Id)
    requires Initial(t, s) && d in s.nodes && n in s.nodes
    ensures InSubtree(t, d, n) && Injected(cmds, d, Blocking) ==> Run(t, s, cmds).nodes[n].blocking
  {
    hide Run, Injected, Topology.Valid, InSubtree;
    FaultIsExact(t, s, cmds, d);
    BlockingAfterRun(t, s, cmds, n);
    CoreAfterRun(t, s, cmds, d) by { InitialIsGood(t, s); }
  }

  /** A node blocks exactly if below it, itself included, there is a node into which
      BLOCKING was injected and not cleared since, or ALARM if that node is critical. */
  lemma BlockingByCommands(t: Hierarchy, s: Plant, cmds: seq<Command>, n: Id)
    requires Initial(t, s) && n in s.nodes
    ensures Run(t, s, cmds).nodes[n].blocking <==> exists d | d in s.nodes && InSubtree(t, d, n) ::
      Injected(cmds, d, Blocking) || (s.nodes[d].core.critical && Injected(cmds, d, Alarm))
  {
    hide Run, Injected, FreshNode, Topology.Valid, InSubtree, Consistent, ReadyClosed, Cores;
    var nodes := Run(t, s, cmds).nodes;
    BlockingAfterRun(t, s, cmds, n);
    forall d | d in s.nodes
      ensures StopsProduction(nodes[d].core) <==>
        Injected(cmds, d, Blocking) || (s.nodes[d].core.critical && Injected(cmds, d, Alarm))
    {
      FaultIsExact(t, s, cmds, d);
      WiringKept(t, s, cmds, d);
    }
  }

  lemma {:induction false} RunAllKeepsWiring(t: Hierarchy, c: CoreMap, cmds: seq<Command>, n: Id)
    requires Covers(t, c) && n in c
    ensures RunAll(t, c, cmds)[n].critical == c[n].critical && RunAll(t, c, cmds)[n].plan == c[n].plan
    decreases |cmds|
  {
    hide ExecuteAll;
    if cmds != [] {
      var front, cmd := cmds[..|cmds| - 1], cmds[|cmds| - 1];
      RunAllKeepsWiring(t, c, front, n);
      ExecuteKeepsWiring(t, RunAll(t, c, front), cmd, n);
    }
  }

  lemma ExecuteKeepsWiring(t: Hierarchy, c: CoreMap, cmd: Command, n: Id)
    requires Covers(t, c) && n in c
    ensures ExecuteAll(t, c, cmd)[n].critical == c[n].critical && ExecuteAll(t, c, cmd)[n].plan == c[n].plan
  {
    hide Moves, ImpactBelow, WorkingChain, InSubtree, Topology.Valid;
  }

  /** No command changes a plan or what is critical. */
  lemma WiringKept(t: Hierarchy, s: Plant, cmds: seq<Command>, n: Id)
    requires Initial(t, s) && n in s.nodes
    ensures Fits(t, Run(t, s, cmds))
    ensures Run(t, s, cmds).nodes[n].core.critical == s.nodes[n].core.critical
    ensures Run(t, s, cmds).nodes[n].core.plan == s.nodes[n].core.plan
  {
    hide Run, RunAll, Initial, Topology.Valid, Consistent, ReadyClosed;
    InitialIsGood(t, s);
    CoreAfterRun(t, s, cmds, n);
    RunAllKeepsWiring(t, Cores(s), cmds, n);
  }

  /** After any run, a node says that a child is blocked exactly if one is. */
  lemma ChildBlockedIff(t: Hierarchy, s: Plant, cmds: seq<Command>, n: Id)
    requires Initial(t, s) && n in s.nodes
    ensures var nodes := Run(t, s, cmds).nodes;
      nodes[n].childBlocked <==> exists k | k in t.kids[n] && k in nodes :: nodes[k].blocking
  {
    hide Run, FreshNode, Consistent, ReadyClosed, Topology.Valid, Cores, RunAll;
    InitialIsGood(t, s);
    RunRefines(t, s, cmds);
    ViewBlocked(t, Run(t, s, cmds), n);
  }

  lemma KidIsSeen(t: Hierarchy, s: Plant, n: Id, k: Id)
    requires Good(t, s) && n in s.nodes && k in t.kids[n]
    ensures k in s.nodes && Cached(s.nodes[n].childBlock, k) == s.nodes[k].blocking
  {
    hide ReadyClosed, OnlyKids, Published, Signature, SignedBlocking, SignedReady;
    assert t.up[k] == n;
    assert Linked(t, s, k) && Settled(s.nodes[k]);
  }

  lemma ViewBlocked(t: Hierarchy, s: Plant, n: Id)
    requires Good(t, s) && n in s.nodes
    ensures s.nodes[n].childBlocked <==> exists k | k in t.kids[n] && k in s.nodes :: s.nodes[k].blocking
  {
    hide Linked, Published, ReadyClosed, Topology.Valid, SignedBlocking, SignedReady;
    var view := s.nodes[n].childBlock;
    assert Settled(s.nodes[n]) && OnlyKids(t, s, n);
    forall k | k in t.kids[n]
      ensures k in s.nodes && Cached(view, k) == s.nodes[k].blocking
    {
      KidIsSeen(t, s, n, k);
    }
    if k :| k in view && view[k] {
      assert Cached(view, k);
    }
  }
}
