/** Which reports the nodes of the plant let out over a run. */
module PlantReports {
  import opened PlantModel
  import opened PlantInvariants
  import opened PlantIdeal
  import opened PlantTheorems

  /** The reports that n let out, in order. */
  function ReportsOf(trace: seq<ProcessReport>, n: Id): (own: seq<ProcessReport>)
    ensures forall r | r in own :: r.origin == n
    decreases |trace|
  {
    if trace == [] then []
    else
      var rest, last := ReportsOf(trace[..|trace| - 1], n), trace[|trace| - 1];
      if last.origin == n then rest + [last] else rest
  }

  lemma ReportsAppend(trace: seq<ProcessReport>, r: ProcessReport, n: Id)
    ensures ReportsOf(trace + [r], n) == ReportsOf(trace, n) + if r.origin == n then [r] else []
  {
    assert (trace + [r])[..|trace|] == trace;
  }

  predicate NoRepeats(own: seq<ProcessReport>) {
    forall i | 0 < i < |own| :: own[i - 1] != own[i]
  }

  /** The last of the reports has what the node is now, and a node without any is
      as it was at first. */
  predicate ShowsNow(own: seq<ProcessReport>, n: Id, now: Node) {
    if own != [] then
      var last := own[|own| - 1];
      && last.origin == n && last.step == now.core.step && last.fault == now.core.fault
      && last.ready == now.core.ready && last.blocking == now.blocking && last.affectsProduction == now.blocking
    else
      now.core.step == Unknown && now.core.fault == NoFault && !now.core.ready && !now.blocking
  }

  /** The last published signature is that of the last report let out. */
  predicate Traced(n: Id, sig: bv64, trace: seq<ProcessReport>) {
    var own := ReportsOf(trace, n);
    && NoRepeats(own)
    && sig == if own == [] then NEVER_PUBLISHED else Signature(own[|own| - 1])
  }

  ghost predicate AllTraced(s: Plant) {
    forall n | n in s.nodes :: Traced(n, s.nodes[n].lastSig, s.trace)
  }

  lemma LetOut(own: seq<ProcessReport>, r: ProcessReport)
    requires NoRepeats(own) && (own != [] ==> own[|own| - 1] != r)
    ensures NoRepeats(own + [r])
  {
  }

  lemma EmitTraced(s: Plant, id: Id)
    requires id in s.nodes && AllTraced(s) && !Unchanged(s, id)
    ensures AllTraced(Emit(s, id))
  {
    hide ReportsOf, Signature, NoRepeats;
    var report := BuildReport(id, s.nodes[id]);
    forall n | n in s.nodes
      ensures Traced(n, Emit(s, id).nodes[n].lastSig, Emit(s, id).trace)
    {
      assert Traced(n, s.nodes[n].lastSig, s.trace);
      var own := ReportsOf(s.trace, n);
      ReportsAppend(s.trace, report, n);
      if n == id {
        assert own != [] ==> own[|own| - 1] != report;
        LetOut(own, report);
        assert (own + [report])[|own|] == report;
      } else {
        assert own + [] == own;
      }
    }
  }

  /** Steps that let nothing out. */
  predicate Silent(s: Plant, s': Plant) {
    && s'.nodes.Keys == s.nodes.Keys && s'.trace == s.trace
    && forall n | n in s.nodes :: s'.nodes[n].lastSig == s.nodes[n].lastSig
  }

  lemma SilentTraced(s: Plant, s': Plant)
    requires AllTraced(s) && Silent(s, s')
    ensures AllTraced(s')
  {
    hide Traced;
  }

  lemma SetCoreSilent(s: Plant, id: Id, c: Core)
    requires id in s.nodes
    ensures Silent(s, SetCore(s, id, c))
  {
  }

  lemma RefreshSilent(s: Plant, id: Id)
    requires id in s.nodes
    ensures Silent(s, Refresh(s, id))
  {
  }

  lemma ReceiveSilent(s: Plant, p: Id, r: ProcessReport)
    requires p in s.nodes
    ensures Silent(s, Receive(s, p, r))
  {
  }

  lemma {:induction false} PublishTraced(t: Hierarchy, s: Plant, id: Id)
    requires Fits(t, s) && id in s.nodes && AllTraced(s)
    ensures AllTraced(Publish(t, s, id))
    decreases t.depth[id]
  {
    hide AllTraced, Silent, Unchanged, Emit, Receive, Refresh;
    if !Unchanged(s, id) {
      EmitTraced(s, id);
      if id in t.up {
        var p, r := t.up[id], BuildReport(id, s.nodes[id]);
        assert t.depth[p] < t.depth[id];
        ReceiveSilent(Emit(s, id), p, r);
        SilentTraced(Emit(s, id), Receive(Emit(s, id), p, r));
        RefreshSilent(Receive(Emit(s, id), p, r), p);
        SilentTraced(Receive(Emit(s, id), p, r), Refresh(Receive(Emit(s, id), p, r), p));
        PublishTraced(t, Refresh(Receive(Emit(s, id), p, r), p), p);
      }
    }
  }

  lemma RecomputeTraced(t: Hierarchy, s: Plant, id: Id)
    requires Fits(t, s) && id in s.nodes && AllTraced(s)
    ensures AllTraced(Recompute(t, s, id))
  {
    hide AllTraced, Silent, Refresh, Publish;
    RefreshSilent(s, id);
    SilentTraced(s, Refresh(s, id));
    PublishTraced(t, Refresh(s, id), id);
  }

  lemma ChangeTraced(t: Hierarchy, s: Plant, id: Id, c: Core)
    requires Fits(t, s) && id in s.nodes && AllTraced(s)
    ensures AllTraced(SetCore(s, id, c)) && AllTraced(Recompute(t, SetCore(s, id, c), id))
  {
    hide AllTraced, Silent, Recompute;
    SetCoreSilent(s, id, c);
    SilentTraced(s, SetCore(s, id, c));
    RecomputeTraced(t, SetCore(s, id, c), id);
  }

  lemma {:induction false} DrivenTraced(t: Hierarchy, s: Plant, cmd: Command)
    requires Fits(t, s) && cmd.id in s.nodes && AllTraced(s)
    ensures AllTraced(Execute(t, s, cmd))
    decreases t.height - t.depth[cmd.id], |t.kids[cmd.id]| + 1
  {
    hide AllTraced, Recompute, SetCore, Promote, AllReady, AdvanceKids, StartKids, FinishKids;
    var id, kids := cmd.id, |t.kids[cmd.id]|;
    var c := s.nodes[id].core;
    match cmd
    case AdvanceCmd(_) =>
      KidsTraced(t, s, id, kids, cmd);
      ChangeTraced(t, s, id, Promote(c));
    case StartCmd(_) =>
      var s1 := SetCore(s, id, c.(working := true, step := Work));
      ChangeTraced(t, s, id, c.(working := true, step := Work));
      KidsTraced(t, s1, id, kids, cmd);
      RecomputeTraced(t, StartKids(t, s1, id, kids), id);
    case FinishCmd(_) =>
      var s1 := SetCore(s, id, c.(working := false, step := Done));
      ChangeTraced(t, s, id, c.(working := false, step := Done));
      KidsTraced(t, s1, id, kids, cmd);
      RecomputeTraced(t, FinishKids(t, s1, id, kids), id);
    case FailCmd(_, severity) =>
      ChangeTraced(t, s, id, c.(fault := WorstOf(c.fault, severity)));
    case ClearCmd(_) =>
      ChangeTraced(t, s, id, c.(fault := NoFault));
  }

  ghost function Kids(t: Hierarchy, s: Plant, id: Id, k: nat, cmd: Command): (r: Plant)
    requires Fits(t, s) && id in s.nodes && k <= |t.kids[id]|
    ensures Fits(t, r)
  {
    match cmd
    case AdvanceCmd(_) => AdvanceKids(t, s, id, k)
    case StartCmd(_) => StartKids(t, s, id, k)
    case FinishCmd(_) => FinishKids(t, s, id, k)
    case _ => s
  }

  function Routed(cmd: Command, kid: Id): Command {
    match cmd
    case AdvanceCmd(_) => AdvanceCmd(kid)
    case StartCmd(_) => StartCmd(kid)
    case FinishCmd(_) => FinishCmd(kid)
    case _ => cmd
  }

  lemma LastKid(t: Hierarchy, s: Plant, id: Id, k: nat, cmd: Command)
    requires Fits(t, s) && id in s.nodes && 0 < k <= |t.kids[id]|
    ensures var kid := t.kids[id][k - 1];
      && kid in t.kids && t.depth[id] < t.depth[kid] <= t.height
      && Kids(t, s, id, k, cmd) ==
         if cmd.FailCmd? || cmd.ClearCmd? then s
         else Execute(t, Kids(t, s, id, k - 1, cmd), Routed(cmd, kid))
  {
    hide AdvanceKids, StartKids, FinishKids, Execute, Topology.Valid;
    KidsByCommands(t, s, id, k - 1);
  }

  lemma {:induction false} KidsTraced(t: Hierarchy, s: Plant, id: Id, k: nat, cmd: Command)
    requires Fits(t, s) && id in s.nodes && k <= |t.kids[id]| && AllTraced(s)
    ensures AllTraced(Kids(t, s, id, k, cmd))
    decreases t.height - t.depth[id], k
  {
    hide AllTraced, Kids, Execute, Topology.Valid;
    if k == 0 {
      NoKidsYet(t, s, id, cmd);
    } else {
      LastKid(t, s, id, k, cmd);
      KidsTraced(t, s, id, k - 1, cmd);
      if !cmd.FailCmd? && !cmd.ClearCmd? {
        DrivenTraced(t, Kids(t, s, id, k - 1, cmd), Routed(cmd, t.kids[id][k - 1]));
      }
    }
  }

  lemma NoKidsYet(t: Hierarchy, s: Plant, id: Id, cmd: Command)
    requires Fits(t, s) && id in s.nodes
    ensures Kids(t, s, id, 0, cmd) == s
  {
    KidsNone(t, s, id);
  }

  lemma {:induction false} RunTraced(t: Hierarchy, s: Plant, cmds: seq<Command>)
    requires Fits(t, s) && AllTraced(s)
    ensures AllTraced(Run(t, s, cmds))
    decreases |cmds|
  {
    hide AllTraced, Advance, StartWork, FinishWork, Fail, ClearFault;
    if cmds != [] {
      var front, cmd := cmds[..|cmds| - 1], cmds[|cmds| - 1];
      RunTraced(t, s, front);
      if cmd.id in s.nodes {
        DrivenTraced(t, Run(t, s, front), cmd);
      }
    }
  }

  /** After any run: of the reports that a node has let out, no two in a row are
      equal, and the last shows its present step, fault, readiness and blocking. A
      node that has let none out is as it was at first. So every change is let out,
      and nothing else but a node's first report. */
  lemma ReportsAreExact(t: Hierarchy, s: Plant, cmds: seq<Command>, n: Id)
    requires Initial(t, s) && s.trace == [] && n in s.nodes
    ensures var s' := Run(t, s, cmds);
      var own := ReportsOf(s'.trace, n);
      NoRepeats(own) && ShowsNow(own, n, s'.nodes[n])
  {
    hide Run, Topology.Valid, Consistent, ReadyClosed, Traced, Published, ShowsNow, ReportsOf;
    var s' := Run(t, s, cmds);
    InitialTraced(t, s);
    RunTraced(t, s, cmds);
    DedupLosesNothing(t, s, cmds, n);
    LastIsPresent(n, s'.nodes[n], s'.trace);
  }

  lemma LastIsPresent(n: Id, now: Node, trace: seq<ProcessReport>)
    requires Traced(n, now.lastSig, trace) && Published(n, now)
    ensures NoRepeats(ReportsOf(trace, n)) && ShowsNow(ReportsOf(trace, n), n, now)
  {
    hide Signature, NoRepeats, ReportsOf;
    var own := ReportsOf(trace, n);
    if own != [] {
      assert own[|own| - 1] in own;
      SignatureInjective(own[|own| - 1], BuildReport(n, now));
    } else {
      SignatureInjective(BuildReport(n, now), BuildReport(n, now));
    }
  }

  lemma InitialTraced(t: Hierarchy, s: Plant)
    requires Initial(t, s) && s.trace == []
    ensures AllTraced(s)
  {
  }
}
