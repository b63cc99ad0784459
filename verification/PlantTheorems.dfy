/** What holds over whole runs of the plant. Each statement about the
    distributed protocol is proved on the ideal commands it refines. */
module PlantTheorems {
  import opened PlantModel
  import opened PlantInvariants
  import opened PlantIdeal

  ghost predicate Good(t: Hierarchy, s: Plant) {
    && Fits(t, s)
    && Consistent(t, s, {}, {})
    && ReadyClosed(t, Cores(s))
  }

  ghost function ExecuteAll(t: Hierarchy, c: CoreMap, cmd: Command): (r: CoreMap)
    requires Covers(t, c)
    ensures Covers(t, r)
  {
    if cmd.id !in c then c
    else
      match cmd
      case AdvanceCmd(id) => AdvanceAll(t, c, id)
      case StartCmd(id) => StartAll(t, c, id)
      case FinishCmd(id) => FinishAll(t, c, id)
      case FailCmd(id, severity) => FailAll(t, c, id, severity)
      case ClearCmd(id) => ClearAll(t, c, id)
  }

  // ---- What a command may change ----

  /** A step of the own plan keeps the configuration and the fault; readiness is
      only gained, and only at the end of the plan. */
  lemma PromoteProgress(c: Core)
    ensures Promote(c).critical == c.critical && Promote(c).plan == c.plan
    ensures Promote(c).fault == c.fault && Promote(c).working == c.working
    ensures c.ready ==> Promote(c).ready
    ensures Promote(c).ready && !c.ready ==> Promote(c).pos >= |c.plan|
    ensures c.ready && c.pos >= |c.plan| ==> Promote(c) == c
  {
  }

  lemma ExecuteKeepsReady(t: Hierarchy, c: CoreMap, cmd: Command, n: Id)
    requires Covers(t, c) && n in c && c[n].ready
    requires c[n].pos >= |c[n].plan|
    ensures ExecuteAll(t, c, cmd)[n].ready
    ensures ExecuteAll(t, c, cmd)[n].pos >= |ExecuteAll(t, c, cmd)[n].plan|
  {
    hide ImpactBelow, Reached, InSubtree, KidsReady;
    PromoteProgress(c[n]);
  }

  /** Readiness is gained at the end of the plan, over ready children. */
  lemma ExecuteGainsReady(t: Hierarchy, c: CoreMap, cmd: Command, n: Id)
    requires Covers(t, c) && n in c && !c[n].ready && ExecuteAll(t, c, cmd)[n].ready
    ensures KidsReady(t, c, n) && ExecuteAll(t, c, cmd)[n].pos >= |ExecuteAll(t, c, cmd)[n].plan|
  {
    hide ImpactBelow, Reached, InSubtree, KidsReady;
    PromoteProgress(c[n]);
  }

  lemma ExecuteKeepsReadyClosed(t: Hierarchy, c: CoreMap, cmd: Command)
    requires Covers(t, c) && ReadyClosed(t, c)
    ensures ReadyClosed(t, ExecuteAll(t, c, cmd))
  {
    hide ExecuteAll;
    var r := ExecuteAll(t, c, cmd);
    forall n | n in r && r[n].ready
      ensures r[n].pos >= |r[n].plan| && KidsReady(t, r, n)
    {
      if c[n].ready {
        ExecuteKeepsReady(t, c, cmd, n);
      } else {
        ExecuteGainsReady(t, c, cmd, n);
      }
      assert KidsReady(t, c, n);
      forall k | k in t.kids[n]
        ensures r[k].ready
      {
        ExecuteKeepsReady(t, c, cmd, k);
      }
    }
  }

  // ---- Refinement over runs ----

  lemma InitialIsGood(t: Hierarchy, s: Plant)
    requires Initial(t, s)
    ensures Good(t, s)
  {
    forall n | n in s.nodes
      ensures OnlyKids(t, s, n) && Linked(t, s, n) && Settled(s.nodes[n]) && Published(n, s.nodes[n])
    {
      assert n in t.up ==> t.up[n] in s.nodes;
    }
  }

  /** Every command, whatever the state of the caches, does to the nodes exactly
      what the same command does when written over the whole tree, and leaves
      every cache and every last signature true again. */
  lemma ExecuteRefines(t: Hierarchy, s: Plant, cmd: Command)
    requires Good(t, s)
    ensures Good(t, Execute(t, s, cmd))
    ensures Cores(Execute(t, s, cmd)) == ExecuteAll(t, Cores(s), cmd)
  {
    if cmd.id in s.nodes {
      match cmd {
        case AdvanceCmd(id) => AdvanceRefines(t, s, id, {});
        case StartCmd(id) => StartRefines(t, s, id, {});
        case FinishCmd(id) => FinishRefines(t, s, id, {});
        case FailCmd(id, severity) => FailRefines(t, s, id, severity, {});
        case ClearCmd(id) => ClearRefines(t, s, id, {});
      }
    }
    ExecuteKeepsReadyClosed(t, Cores(s), cmd);
  }

  ghost function RunAll(t: Hierarchy, c: CoreMap, cmds: seq<Command>): (r: CoreMap)
    requires Covers(t, c)
    ensures Covers(t, r)
    decreases |cmds|
  {
    if cmds == [] then c else ExecuteAll(t, RunAll(t, c, cmds[..|cmds| - 1]), cmds[|cmds| - 1])
  }

  lemma {:induction false} RunRefines(t: Hierarchy, s: Plant, cmds: seq<Command>)
    requires Good(t, s)
    ensures Good(t, Run(t, s, cmds))
    ensures Cores(Run(t, s, cmds)) == RunAll(t, Cores(s), cmds)
    decreases |cmds|
  {
    if cmds != [] {
      RunRefines(t, s, cmds[..|cmds| - 1]);
      ExecuteRefines(t, Run(t, s, cmds[..|cmds| - 1]), cmds[|cmds| - 1]);
    }
  }

  /** A hard fault stops production; an alarm does on the critical path. */
  predicate StopsProduction(c: Core) {
    c.fault == Blocking || (c.fault == Alarm && c.critical)
  }

  /** After any run, a node blocks iff some node of its subtree has a BLOCKING
      fault, or an ALARM while being critical. */
  lemma BlockingAfterRun(t: Hierarchy, s: Plant, cmds: seq<Command>, n: Id)
    requires Initial(t, s) && n in s.nodes
    ensures var nodes := Run(t, s, cmds).nodes;
      nodes[n].blocking <==> exists d | d in nodes && InSubtree(t, d, n) :: StopsProduction(nodes[d].core)
  {
    InitialIsGood(t, s);
    RunRefines(t, s, cmds);
    BlockingIsExact(t, Run(t, s, cmds), {}, n);
    ImpactOfNodes(t, Run(t, s, cmds), n);
  }

  lemma ImpactOfNodes(t: Hierarchy, s: Plant, n: Id)
    ensures ImpactBelow(t, Cores(s), n) <==>
      exists d | d in s.nodes && InSubtree(t, d, n) :: StopsProduction(s.nodes[d].core)
  {
    if ImpactBelow(t, Cores(s), n) {
      var d :| d in Cores(s) && InSubtree(t, d, n) && OwnImpact(Cores(s)[d]);
      assert StopsProduction(s.nodes[d].core);
    }
    if d :| d in s.nodes && InSubtree(t, d, n) && StopsProduction(s.nodes[d].core) {
      assert OwnImpact(Cores(s)[d]);
    }
  }

  /** Suppressing repeated reports loses nothing: after any run every parent's
      view of a child is the child's real state, and what a node last published
      is what it is. */
  lemma DedupLosesNothing(t: Hierarchy, s: Plant, cmds: seq<Command>, c: Id)
    requires Initial(t, s) && c in s.nodes
    ensures var s' := Run(t, s, cmds);
      && (c in t.up ==>
          && Cached(s'.nodes[t.up[c]].childReady, c) == s'.nodes[c].core.ready
          && Cached(s'.nodes[t.up[c]].childBlock, c) == s'.nodes[c].blocking)
      && Published(c, s'.nodes[c])
  {
    InitialIsGood(t, s);
    RunRefines(t, s, cmds);
    assert Linked(t, Run(t, s, cmds), c) && Settled(Run(t, s, cmds).nodes[c]);
  }

  // ---- Readiness ----

  lemma {:induction false} ReadyDownward(t: Hierarchy, c: CoreMap, d: Id, n: Id)
    requires Covers(t, c) && ReadyClosed(t, c) && d in c && InSubtree(t, d, n) && n in c && c[n].ready
    ensures c[d].ready
    decreases t.depth[d]
  {
    if d != n {
      ReadyDownward(t, c, t.up[d], n);
      assert KidsReady(t, c, t.up[d]);
    }
  }

  lemma {:induction false} RunAllKeepsReady(t: Hierarchy, c: CoreMap, cmds: seq<Command>, d: Id)
    requires Covers(t, c) && d in c
    ensures c[d].ready && c[d].pos >= |c[d].plan| ==>
      RunAll(t, c, cmds)[d].ready && RunAll(t, c, cmds)[d].pos >= |RunAll(t, c, cmds)[d].plan|
    decreases |cmds|
  {
    hide ExecuteAll;
    if cmds != [] && c[d].ready && c[d].pos >= |c[d].plan| {
      var cut := cmds[..|cmds| - 1];
      RunAllKeepsReady(t, c, cut, d);
      ExecuteKeepsReady(t, RunAll(t, c, cut), cmds[|cmds| - 1], d);
    }
  }

  lemma CoreAfterRun(t: Hierarchy, s: Plant, cmds: seq<Command>, d: Id)
    requires Good(t, s) && d in s.nodes
    ensures Good(t, Run(t, s, cmds))
    ensures Run(t, s, cmds).nodes[d].core == RunAll(t, Cores(s), cmds)[d]
  {
    hide Consistent, ReadyClosed, Run, RunAll, Topology.Valid;
    RunRefines(t, s, cmds);
    assert Run(t, s, cmds).nodes[d].core == Cores(Run(t, s, cmds))[d];
  }

  /** Readiness is never lost, means an exhausted plan, and covers the subtree. */
  lemma ReadyForever(t: Hierarchy, s: Plant, cmds: seq<Command>, n: Id, d: Id)
    requires Good(t, s) && n in s.nodes && d in s.nodes
    ensures s.nodes[n].core.ready && InSubtree(t, d, n) ==>
      var r := Run(t, s, cmds).nodes[d].core; r.ready && r.pos >= |r.plan|
  {
    hide Consistent, Run, RunAll, Topology.Valid;
    if s.nodes[n].core.ready && InSubtree(t, d, n) {
      CoreAfterRun(t, s, cmds, d);
      ReadyDownward(t, Cores(s), d, n);
      RunAllKeepsReady(t, Cores(s), cmds, d);
    }
  }

  ghost predicate Held(c: Core) { !c.ready && c.fault != NoFault }

  lemma ExecuteKeepsHeld(t: Hierarchy, c: CoreMap, cmd: Command, d: Id)
    requires Covers(t, c) && d in c && Held(c[d]) && cmd != ClearCmd(d)
    ensures Held(ExecuteAll(t, c, cmd)[d])
  {
  }

  lemma {:induction false} RunAllKeepsHeld(t: Hierarchy, c: CoreMap, cmds: seq<Command>, d: Id)
    requires Covers(t, c) && d in c
    ensures Held(c[d]) && ClearCmd(d) !in cmds ==> Held(RunAll(t, c, cmds)[d])
    decreases |cmds|
  {
    hide ExecuteAll, Held;
    if cmds != [] && Held(c[d]) && ClearCmd(d) !in cmds {
      var cut := cmds[..|cmds| - 1];
      RunAllKeepsHeld(t, c, cut, d);
      assert cmds[|cmds| - 1] in cmds;
      ExecuteKeepsHeld(t, RunAll(t, c, cut), cmds[|cmds| - 1], d);
    }
  }

  /** A node that is not ready and holds any fault keeps itself and every
      ancestor from becoming ready until that very fault is cleared. */
  lemma FaultHoldsAncestors(t: Hierarchy, s: Plant, cmds: seq<Command>, d: Id, n: Id)
    requires Good(t, s) && d in s.nodes && n in s.nodes
    ensures Held(s.nodes[d].core) && ClearCmd(d) !in cmds && InSubtree(t, d, n) ==>
      Held(Run(t, s, cmds).nodes[d].core) && !Run(t, s, cmds).nodes[n].core.ready
  {
    hide Consistent, ReadyClosed, Run, RunAll, Topology.Valid;
    if Held(s.nodes[d].core) && ClearCmd(d) !in cmds && InSubtree(t, d, n) {
      CoreAfterRun(t, s, cmds, d);
      CoreAfterRun(t, s, cmds, n);
      RunAllKeepsHeld(t, Cores(s), cmds, d);
      var s' := Run(t, s, cmds);
      if s'.nodes[n].core.ready {
        ReadyDownward(t, Cores(s'), d, n);
      }
    }
  }

  // ---- Faults over a run ----

  /** The k-th command is a fault of n that no later command clears. */
  predicate Uncleared(cmds: seq<Command>, n: Id, k: nat) {
    k < |cmds| && cmds[k].FailCmd? && cmds[k].id == n && forall j | k < j < |cmds| :: cmds[j] != ClearCmd(n)
  }

  lemma UnclearedAppend(cmds: seq<Command>, cmd: Command, n: Id, k: nat)
    requires k <= |cmds|
    ensures Uncleared(cmds + [cmd], n, k) <==>
      if k == |cmds| then cmd.FailCmd? && cmd.id == n else Uncleared(cmds, n, k) && cmd != ClearCmd(n)
  {
    var all := cmds + [cmd];
    assert all[|cmds|] == cmd;
    assert forall j | 0 <= j < |cmds| :: all[j] == cmds[j];
  }

  /** The fault is the worst of those injected and not cleared since. */
  ghost predicate WorstUncleared(cmds: seq<Command>, n: Id, fault: FaultLevel) {
    && (forall k: nat | Uncleared(cmds, n, k) :: Severity(cmds[k].severity) <= Severity(fault))
    && (fault == NoFault || exists k: nat :: Uncleared(cmds, n, k) && cmds[k].severity == fault)
  }

  lemma WorstAppend(cmds: seq<Command>, cmd: Command, n: Id, fault: FaultLevel)
    requires WorstUncleared(cmds, n, fault)
    ensures WorstUncleared(cmds + [cmd], n,
      if cmd == ClearCmd(n) then NoFault
      else if cmd.FailCmd? && cmd.id == n then WorstOf(fault, cmd.severity) else fault)
  {
    var all := cmds + [cmd];
    forall k: nat | k <= |cmds|
      ensures Uncleared(all, n, k) <==>
        if k == |cmds| then cmd.FailCmd? && cmd.id == n else Uncleared(cmds, n, k) && cmd != ClearCmd(n)
    {
      UnclearedAppend(cmds, cmd, n, k);
    }
    if cmd.FailCmd? && cmd.id == n {
      assert Uncleared(all, n, |cmds|);
    }
    if fault != NoFault && cmd != ClearCmd(n) {
      var k: nat :| Uncleared(cmds, n, k) && cmds[k].severity == fault;
      assert Uncleared(all, n, k) && all[k].severity == fault;
    }
  }

  lemma ExecuteFault(t: Hierarchy, c: CoreMap, cmd: Command, n: Id)
    requires Covers(t, c) && n in c
    ensures ExecuteAll(t, c, cmd)[n].fault ==
      if cmd == ClearCmd(n) then NoFault
      else if cmd.FailCmd? && cmd.id == n then WorstOf(c[n].fault, cmd.severity) else c[n].fault
  {
    PromoteProgress(c[n]);
  }

  lemma {:induction false} RunAllFault(t: Hierarchy, c: CoreMap, cmds: seq<Command>, n: Id)
    requires Covers(t, c) && n in c && c[n].fault == NoFault
    ensures WorstUncleared(cmds, n, RunAll(t, c, cmds)[n].fault)
    decreases |cmds|
  {
    hide ExecuteAll, WorstUncleared, WorstOf;
    if cmds == [] {
      NoneUncleared(n);
    } else {
      var cut, cmd := cmds[..|cmds| - 1], cmds[|cmds| - 1];
      RunAllFault(t, c, cut, n);
      ExecuteFault(t, RunAll(t, c, cut), cmd, n);
      WorstAppend(cut, cmd, n, RunAll(t, c, cut)[n].fault);
      assert cmds == cut + [cmd];
    }
  }

  lemma NoneUncleared(n: Id)
    ensures WorstUncleared([], n, NoFault)
  {
  }

  /** After any run, a node's fault is the worst one injected into it since its
      fault was last cleared, and there is none if none was. */
  lemma FaultIsWorstSinceClear(t: Hierarchy, s: Plant, cmds: seq<Command>, n: Id)
    requires Initial(t, s) && n in s.nodes
    ensures WorstUncleared(cmds, n, Run(t, s, cmds).nodes[n].core.fault)
  {
    hide Consistent, ReadyClosed, Run, RunAll, WorstUncleared, Topology.Valid;
    InitialIsGood(t, s);
    CoreAfterRun(t, s, cmds, n);
    RunAllFault(t, Cores(s), cmds, n);
  }

  // ---- Starting and finishing ----

  /** Starting work reaches the whole subtree, or changes nothing in the plant. */
  lemma StartAllOrNothing(t: Hierarchy, s: Plant, n: Id)
    requires Good(t, s) && n in s.nodes
    ensures var s' := StartWork(t, s, n);
      if s.nodes[n].core.ready && !ImpactBelow(t, Cores(s), n)
      then forall d | d in s.nodes ::
        s'.nodes[d].core ==
          if InSubtree(t, d, n) then s.nodes[d].core.(working := true, step := Work) else s.nodes[d].core
      else s' == s
  {
    StartRefines(t, s, n, {});
    BlockingIsExact(t, s, {}, n);
    forall d | d in s.nodes
      ensures StartWork(t, s, n).nodes[d].core == Cores(StartWork(t, s, n))[d]
    {
    }
  }

  /** Finishing reaches exactly the nodes joined to n by working nodes. */
  lemma FinishFollowsWorkers(t: Hierarchy, s: Plant, n: Id, d: Id)
    requires Good(t, s) && n in s.nodes && d in s.nodes
    ensures FinishWork(t, s, n).nodes[d].core ==
      if WorkingChain(t, Cores(s), d, n) then s.nodes[d].core.(working := false, step := Done)
      else s.nodes[d].core
  {
    FinishRefines(t, s, n, {});
    assert FinishWork(t, s, n).nodes[d].core == Cores(FinishWork(t, s, n))[d];
  }

  lemma {:induction false} StartedSubtreeChains(t: Hierarchy, c: CoreMap, d: Id, n: Id)
    requires Covers(t, c) && d in c && InSubtree(t, d, n)
    requires forall x | x in c && InSubtree(t, x, n) :: c[x].working
    ensures WorkingChain(t, c, d, n)
    decreases t.depth[d]
  {
    if d != n {
      StartedSubtreeChains(t, c, t.up[d], n);
    }
  }

  /** Finishing undoes what an effective start did, over the same nodes. */
  lemma FinishAfterStart(t: Hierarchy, s: Plant, n: Id, d: Id)
    requires Good(t, s) && n in s.nodes && d in s.nodes
    requires s.nodes[n].core.ready && !ImpactBelow(t, Cores(s), n)
    ensures FinishWork(t, StartWork(t, s, n), n).nodes[d].core ==
      if InSubtree(t, d, n) then s.nodes[d].core.(working := false, step := Done) else s.nodes[d].core
  {
    hide Consistent, ReadyClosed, StartWork, FinishWork, WorkingChain, ImpactBelow, ExecuteAll, Topology.Valid;
    StartAllOrNothing(t, s, n);
    ExecuteRefines(t, s, StartCmd(n));
    var s1 := StartWork(t, s, n);
    FinishFollowsWorkers(t, s1, n, d);
    if InSubtree(t, d, n) {
      StartedSubtreeChains(t, Cores(s1), d, n);
    } else if WorkingChain(t, Cores(s1), d, n) {
      ChainInSubtree(t, Cores(s1), d, n);
    }
  }
}
