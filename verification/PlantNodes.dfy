/** The objects of the plant. Every command updates nodes in place, and a child
    that is driven calls back into its parent through the upstream link. Each
    method is proved to have exactly the effect on the whole plant of the
    function of the same name in PlantModel. */
module PlantNodes {
  import opened PlantModel

  class NodeStore {
    var nodes: map<Id, HierNode>
    /** Every report let out so far: what the trace hooks of the nodes observe. */
    ghost var trace: seq<ProcessReport>
    /** The node objects this store may reach. */
    ghost var Repr: set<HierNode>

    constructor ()
      ensures nodes == map[] && trace == [] && Repr == {}
    {
      nodes, Repr := map[], {};
      trace := [];
    }

    method Add(node: HierNode)
      modifies this`nodes, this`Repr
      ensures nodes == old(nodes)[node.id := node] && Repr == old(Repr) + {node}
    {
      nodes := nodes[node.id := node];
      Repr := Repr + {node};
    }

    method At(id: Id) returns (n: HierNode?)
      ensures if id in nodes then n == nodes[id] else n == null
    {
      if id in nodes { n := nodes[id]; } else { n := null; }
    }

    /** The nodes are wired as the topology says, and reach each other only
        through this store. */
    ghost predicate Wired(t: Hierarchy)
      reads this`nodes, this`Repr, Repr
      ensures Wired(t) ==> Owned()
    {
      && nodes.Keys == t.kids.Keys
      && (forall i {:trigger nodes[i]} | i in nodes ::
            && nodes[i] in Repr && nodes[i].id == i
            && nodes[i].childIds == t.kids[i]
            && nodes[i].rpc != null && nodes[i].rpc.store == this
            && (i !in t.up ==> nodes[i].up == null))
      && (forall i {:trigger t.up[i]} | i in t.up :: nodes[i].up == nodes[t.up[i]])
    }

    ghost predicate Owned()
      reads this`nodes, this`Repr
    {
      forall i {:trigger nodes[i]} | i in nodes :: nodes[i] in Repr
    }

    /** The state of the whole plant. */
    ghost function Snapshot(): (s: Plant)
      requires Owned()
      reads this, Repr
      ensures s.nodes.Keys == nodes.Keys
    {
      Plant(Views(), trace)
    }

    ghost function Views(): (v: map<Id, Node>)
      requires Owned()
      reads this`nodes, this`Repr, Repr
      ensures v.Keys == nodes.Keys
    {
      map i | i in nodes :: nodes[i].View()
    }

    ghost method Record(t: Hierarchy, r: ProcessReport)
      requires Wired(t)
      modifies this`trace
      ensures Wired(t) && Snapshot() == old(Snapshot()).(trace := old(trace) + [r])
    {
      hide Wired, Views;
      trace := trace + [r];
    }

    lemma Found(t: Hierarchy, i: Id)
      requires Wired(t)
      ensures i in nodes <==> i in t.kids
      ensures i in nodes ==> nodes[i].id == i && nodes[i].Member(t, this)
      ensures i in nodes ==> i in t.depth && t.depth[i] <= t.height
    {
    }

    /** Changing the state of one node, not its links, keeps the wiring. */
    twostate lemma WiringKept(t: Hierarchy)
      requires old(Wired(t)) && nodes == old(nodes) && Repr == old(Repr)
      requires forall i | i in nodes ::
        && nodes[i].childIds == old(nodes[i].childIds)
        && nodes[i].rpc == old(nodes[i].rpc)
        && nodes[i].up == old(nodes[i].up)
      ensures Wired(t)
    {
    }

    /** Changing the state of one node changes one entry of the plant. */
    twostate lemma EntryChanged(i: Id)
      requires old(Owned()) && Owned() && i in nodes && nodes == old(nodes)
      requires forall j | j in nodes && j != i :: nodes[j].View() == old(nodes[j].View())
      ensures Views() == old(Views())[i := nodes[i].View()]
    {
    }
  }

  /** Routes a parent's command to the child of that id. */
  class RpcRouter {
    const store: NodeStore

    constructor (store: NodeStore)
      ensures this.store == store
    {
      this.store := store;
    }

    method Advance(ghost t: Hierarchy, child: Id)
      requires store.Wired(t)
      modifies store.Repr, store`trace
      ensures store.Wired(t)
      ensures store.Snapshot() == Execute(t, old(store.Snapshot()), AdvanceCmd(child))
      decreases if child in t.depth then t.height - t.depth[child] else 0, 3
    {
      hide PlantModel.Advance, PlantModel.StartWork, PlantModel.FinishWork, PlantModel.Fail, PlantModel.ClearFault,
        NodeStore.Wired, NodeStore.Views, Topology.Valid, Fits;
      store.Found(t, child);
      var n := store.At(child);
      if n != null { n.Advance(t, store); }
    }

    method Start(ghost t: Hierarchy, child: Id)
      requires store.Wired(t)
      modifies store.Repr, store`trace
      ensures store.Wired(t)
      ensures store.Snapshot() == Execute(t, old(store.Snapshot()), StartCmd(child))
      decreases if child in t.depth then t.height - t.depth[child] else 0, 3
    {
      hide PlantModel.Advance, PlantModel.StartWork, PlantModel.FinishWork, PlantModel.Fail, PlantModel.ClearFault,
        NodeStore.Wired, NodeStore.Views, Topology.Valid, Fits;
      store.Found(t, child);
      var n := store.At(child);
      if n != null { n.StartWork(t, store); }
    }

    method Finish(ghost t: Hierarchy, child: Id)
      requires store.Wired(t)
      modifies store.Repr, store`trace
      ensures store.Wired(t)
      ensures store.Snapshot() == Execute(t, old(store.Snapshot()), FinishCmd(child))
      decreases if child in t.depth then t.height - t.depth[child] else 0, 3
    {
      hide PlantModel.Advance, PlantModel.StartWork, PlantModel.FinishWork, PlantModel.Fail, PlantModel.ClearFault,
        NodeStore.Wired, NodeStore.Views, Topology.Valid, Fits;
      store.Found(t, child);
      var n := store.At(child);
      if n != null { n.FinishWork(t, store); }
    }
  }

  class HierNode {
    const id: Id
    var criticalToJob: bool
    var plan: seq<Step>
    var pos: nat
    var curState: Step
    var ready: bool
    var working: bool
    var ownFault: FaultLevel
    var childReady: map<Id, bool>
    var childBlock: map<Id, bool>
    var childBlocked: bool
    var blocking: bool
    var childIds: seq<Id>
    var rpc: RpcRouter?
    /** The parent, or null at the top, where reports leave the plant. */
    var up: HierNode?
    var lastSig: bv64

    constructor (id: Id)
      ensures this.id == id && View() == FreshNode(true, [])
      ensures criticalToJob && plan == [] && pos == 0 && curState == Unknown
      ensures !ready && !working && ownFault == NoFault
      ensures childReady == map[] && childBlock == map[] && !childBlocked && !blocking
      ensures childIds == [] && rpc == null && up == null && lastSig == 0xFFFF_FFFF_FFFF_FFFF
    {
      this.id := id;
      criticalToJob, plan, pos, curState := true, [], 0, Unknown;
      ready, working, ownFault := false, false, NoFault;
      childReady, childBlock, childBlocked, blocking := map[], map[], false, false;
      childIds, rpc, up := [], null, null;
      lastSig := NEVER_PUBLISHED;
    }

    method SetPlan(plan: seq<Step>)
      modifies this`plan
      ensures this.plan == plan
    {
      this.plan := plan;
    }

    method SetCriticalToJob(c: bool)
      modifies this`criticalToJob
      ensures criticalToJob == c
    {
      criticalToJob := c;
    }

    method SetRpc(rpc: RpcRouter?)
      modifies this`rpc
      ensures this.rpc == rpc
    {
      this.rpc := rpc;
    }

    method SetUpstream(up: HierNode?)
      modifies this`up
      ensures this.up == up
    {
      this.up := up;
    }

    method AddChild(id: Id)
      modifies this`childIds
      ensures childIds == old(childIds) + [id]
    {
      childIds := childIds + [id];
    }

    ghost function View(): Node
      reads this
    {
      Node(Core(criticalToJob, plan, pos, curState, ready, working, ownFault),
           childReady, childBlock, childBlocked, blocking, lastSig)
    }

    ghost predicate Member(t: Hierarchy, s: NodeStore)
      reads this, s`nodes, s`Repr, s.Repr
    {
      s.Wired(t) && id in s.nodes && s.nodes[id] == this
    }

    // ---- Upward ----

    method MakeReport() returns (r: ProcessReport)
      ensures r == BuildReport(id, View())
      ensures r.origin == id && r.step == curState && r.fault == ownFault && r.ready == ready
      ensures r.blocking == r.affectsProduction == blocking
    {
      r := ProcessReport(id, curState, ownFault, ready, blocking, blocking);
    }

    lemma OwnEntry(t: Hierarchy, s: NodeStore)
      requires Member(t, s)
      ensures s.Snapshot().nodes[id] == View()
      ensures Fits(t, s.Snapshot()) && id in t.kids && id in t.depth && t.depth[id] <= t.height
      ensures childIds == t.kids[id] && rpc != null && rpc.store == s
      ensures forall i {:trigger s.nodes[i]} | i in s.nodes && i != id :: s.nodes[i] != this
    {
    }

    lemma ParentIsMember(t: Hierarchy, s: NodeStore)
      requires Member(t, s)
      ensures up != null <==> id in t.up
      ensures up != null ==> up.Member(t, s) && up.id == t.up[id] && t.depth[up.id] < t.depth[id]
    {
      if id in t.up {
        assert t.up[id] in s.nodes;
      }
    }

    method Remember(sig: bv64)
      modifies this`lastSig
      ensures View() == old(View()).(lastSig := sig)
    {
      lastSig := sig;
    }

    /** Remembering the signature changes that one entry of the plant. */
    method Sign(ghost t: Hierarchy, ghost s: NodeStore, sig: bv64)
      requires Member(t, s)
      modifies this`lastSig
      ensures Member(t, s)
      ensures s.Snapshot() == old(s.Snapshot()).(
        nodes := old(s.Snapshot()).nodes[id := old(s.Snapshot()).nodes[id].(lastSig := sig)])
    {
      hide Signature, NodeStore.Wired, NodeStore.Views, Topology.Valid, Fits;
      OwnEntry(t, s);
      Remember(sig);
      s.WiringKept(t);
      s.EntryChanged(id);
    }

    method Note(ghost t: Hierarchy, ghost s: NodeStore, r: ProcessReport, sig: bv64)
      requires Member(t, s) && r == BuildReport(id, View()) && sig == Signature(r)
      modifies this`lastSig, s`trace
      ensures Member(t, s)
      ensures s.Snapshot() == Emit(old(s.Snapshot()), id)
    {
      hide Signature, BuildReport, NodeStore.Wired, NodeStore.Views, Topology.Valid, Fits;
      OwnEntry(t, s);
      Sign(t, s, sig);
      s.Record(t, r);
    }

    method Publish(ghost t: Hierarchy, ghost s: NodeStore)
      requires Member(t, s)
      modifies s.Repr, s`trace
      ensures s.Wired(t)
      ensures s.Snapshot() == PlantModel.Publish(t, old(s.Snapshot()), id)
      decreases t.depth[id], 0
    {
      hide PlantModel.Publish, PlantModel.Report, Signature, BuildReport, Emit,
        NodeStore.Wired, NodeStore.Snapshot, Topology.Valid, Fits;
      OwnEntry(t, s);
      PublishCases(t, s.Snapshot(), id);
      var r := MakeReport();
      var sig := Signature(r);
      if sig == lastSig { return; }
      Note(t, s, r, sig);
      ParentIsMember(t, s);
      if up != null { up.Report(t, s, r); }
    }

    method AnyChildBlocked() returns (any: bool)
      ensures any == AnyBlocked(childBlock)
    {
      any := false;
      var rest := childBlock.Keys;
      while rest != {}
        invariant rest <= childBlock.Keys
        invariant any <==> exists c | c in childBlock && c !in rest :: childBlock[c]
        decreases rest
      {
        var c :| c in rest;
        if childBlock[c] { any := true; }
        rest := rest - {c};
      }
    }

    /** What blocks this node: its own fault, or a child's report. */
    method Derive()
      modifies this`childBlocked, this`blocking
      ensures View() == Aggregate(old(View()))
    {
      var anyBlocked := AnyChildBlocked();
      childBlocked := anyBlocked;
      blocking := AffectsProduction(ownFault, criticalToJob) || anyBlocked;
    }

    method RecomputeAndReport(ghost t: Hierarchy, ghost s: NodeStore)
      requires Member(t, s)
      modifies s.Repr, s`trace
      ensures s.Wired(t)
      ensures s.Snapshot() == Recompute(t, old(s.Snapshot()), id)
      decreases t.depth[id], 1
    {
      hide PlantModel.Publish, Aggregate,
        NodeStore.Wired, NodeStore.Views, Topology.Valid, Fits;
      OwnEntry(t, s);
      Derive();
      s.WiringKept(t);
      s.EntryChanged(id);
      assert s.Snapshot() == Refresh(old(s.Snapshot()), id);
      Publish(t, s);
    }

    method Store(child: ProcessReport)
      modifies this`childReady, this`childBlock
      ensures View() == old(View()).(
        childReady := old(childReady)[child.origin := child.ready],
        childBlock := old(childBlock)[child.origin := child.blocking])
    {
      childReady := childReady[child.origin := child.ready];
      childBlock := childBlock[child.origin := child.blocking];
    }

    method Report(ghost t: Hierarchy, ghost s: NodeStore, child: ProcessReport)
      requires Member(t, s)
      modifies s.Repr, s`trace
      ensures s.Wired(t)
      ensures s.Snapshot() == PlantModel.Report(t, old(s.Snapshot()), id, child)
      decreases t.depth[id], 2
    {
      hide Recompute, NodeStore.Wired, NodeStore.Views, Topology.Valid, Fits;
      OwnEntry(t, s);
      Store(child);
      s.WiringKept(t);
      s.EntryChanged(id);
      assert s.Snapshot() == Receive(old(s.Snapshot()), id, child);
      RecomputeAndReport(t, s);
    }

    // ---- Downward ----

    method PromoteSelf()
      modifies this`pos, this`curState
      ensures if old(pos) < |plan| then pos == old(pos) + 1 && curState == plan[old(pos)]
              else pos == old(pos) && curState == old(curState)
    {
      if pos < |plan| {
        curState := plan[pos];
        pos := pos + 1;
      }
    }

    /** One step of the own plan, and READY once the plan is exhausted. */
    method TakeStep()
      modifies this`pos, this`curState, this`ready
      ensures View() == old(View()).(core := Promote(old(View()).core))
      ensures pos == if old(pos) < |plan| then old(pos) + 1 else old(pos)
      ensures ready == (old(ready) || old(pos) + 1 >= |plan|)
      ensures if ready && !old(ready) then curState == Ready
              else curState == if old(pos) < |plan| then plan[old(pos)] else old(curState)
    {
      PromoteSelf();
      if pos >= |plan| && !ready {
        ready := true;
        curState := Ready;
      }
    }

    method SetWork(working: bool, step: Step)
      modifies this`working, this`curState
      ensures View() == old(View()).(core := old(View()).core.(working := working, step := step))
    {
      this.working := working;
      curState := step;
    }

    method EnterWork(ghost t: Hierarchy, ghost s: NodeStore, working: bool, step: Step)
      requires Member(t, s)
      modifies this`working, this`curState
      ensures Member(t, s)
      ensures s.Snapshot() == SetCore(old(s.Snapshot()), id,
                                      old(s.Snapshot()).nodes[id].core.(working := working, step := step))
    {
      hide NodeStore.Wired, NodeStore.Views, Topology.Valid, Fits;
      OwnEntry(t, s);
      SetWork(working, step);
      s.WiringKept(t);
      s.EntryChanged(id);
      assert s.Snapshot() == SetCore(old(s.Snapshot()), id, View().core);
    }

    method AllChildrenReady() returns (all: bool)
      ensures all == AllReady(childIds, childReady)
    {
      for i := 0 to |childIds|
        invariant forall j | 0 <= j < i :: Cached(childReady, childIds[j])
      {
        if childIds[i] !in childReady || !childReady[childIds[i]] {
          return false;
        }
      }
      return true;
    }

    method AdvanceChildren(ghost t: Hierarchy, s: NodeStore)
      requires Member(t, s)
      modifies s.Repr, s`trace
      ensures Member(t, s)
      ensures s.Snapshot() == AdvanceKids(t, old(s.Snapshot()), id, |t.kids[id]|)
      decreases t.height - t.depth[id], 1
    {
      hide AdvanceKids, Execute, NodeStore.Wired, NodeStore.Views, Topology.Valid, Fits;
      OwnEntry(t, s);
      KidsNone(t, s.Snapshot(), id);
      for i := 0 to |childIds|
        invariant Member(t, s)
        invariant s.Snapshot() == AdvanceKids(t, old(s.Snapshot()), id, i)
      {
        OwnEntry(t, s);
        KidsByCommands(t, old(s.Snapshot()), id, i);
        rpc.Advance(t, childIds[i]);
      }
      OwnEntry(t, s);
    }

    method StartChildren(ghost t: Hierarchy, s: NodeStore)
      requires Member(t, s)
      modifies s.Repr, s`trace
      ensures Member(t, s)
      ensures s.Snapshot() == StartKids(t, old(s.Snapshot()), id, |t.kids[id]|)
      decreases t.height - t.depth[id], 1
    {
      hide StartKids, Execute, NodeStore.Wired, NodeStore.Views, Topology.Valid, Fits;
      OwnEntry(t, s);
      KidsNone(t, s.Snapshot(), id);
      for i := 0 to |childIds|
        invariant Member(t, s)
        invariant s.Snapshot() == StartKids(t, old(s.Snapshot()), id, i)
      {
        OwnEntry(t, s);
        KidsByCommands(t, old(s.Snapshot()), id, i);
        rpc.Start(t, childIds[i]);
      }
      OwnEntry(t, s);
    }

    method FinishChildren(ghost t: Hierarchy, s: NodeStore)
      requires Member(t, s)
      modifies s.Repr, s`trace
      ensures Member(t, s)
      ensures s.Snapshot() == FinishKids(t, old(s.Snapshot()), id, |t.kids[id]|)
      decreases t.height - t.depth[id], 1
    {
      hide FinishKids, Execute, NodeStore.Wired, NodeStore.Views, Topology.Valid, Fits;
      OwnEntry(t, s);
      KidsNone(t, s.Snapshot(), id);
      for i := 0 to |childIds|
        invariant Member(t, s)
        invariant s.Snapshot() == FinishKids(t, old(s.Snapshot()), id, i)
      {
        OwnEntry(t, s);
        KidsByCommands(t, old(s.Snapshot()), id, i);
        rpc.Finish(t, childIds[i]);
      }
      OwnEntry(t, s);
    }

    method Advance(ghost t: Hierarchy, s: NodeStore)
      requires Member(t, s)
      modifies s.Repr, s`trace
      ensures s.Wired(t)
      ensures s.Snapshot() == PlantModel.Advance(t, old(s.Snapshot()), id)
      decreases t.height - t.depth[id], 2
    {
      hide PlantModel.Advance, Recompute, AdvanceKids, Promote, AllReady, NodeStore.Wired, NodeStore.Views, Topology.Valid, Fits;
      OwnEntry(t, s);
      CommandCases(t, s.Snapshot(), id);
      if ownFault != NoFault || blocking { return; }
      var allReady := AllChildrenReady();
      if childIds != [] && !allReady {
        if rpc != null { AdvanceChildren(t, s); }
        return;
      }
      TakeStep();
      s.WiringKept(t);
      s.EntryChanged(id);
      assert s.Snapshot() == SetCore(old(s.Snapshot()), id, View().core);
      RecomputeAndReport(t, s);
    }

    method StartWork(ghost t: Hierarchy, s: NodeStore)
      requires Member(t, s)
      modifies s.Repr, s`trace
      ensures s.Wired(t)
      ensures s.Snapshot() == PlantModel.StartWork(t, old(s.Snapshot()), id)
      decreases t.height - t.depth[id], 2
    {
      hide PlantModel.StartWork, Recompute, StartKids, SetCore, NodeStore.Wired, NodeStore.Snapshot, Topology.Valid, Fits;
      OwnEntry(t, s);
      CommandCases(t, s.Snapshot(), id);
      if !ready || blocking { return; }
      EnterWork(t, s, true, Work);
      OwnEntry(t, s);
      if rpc != null { StartChildren(t, s); }
      RecomputeAndReport(t, s);
    }

    method FinishWork(ghost t: Hierarchy, s: NodeStore)
      requires Member(t, s)
      modifies s.Repr, s`trace
      ensures s.Wired(t)
      ensures s.Snapshot() == PlantModel.FinishWork(t, old(s.Snapshot()), id)
      decreases t.height - t.depth[id], 2
    {
      hide PlantModel.FinishWork, Recompute, FinishKids, SetCore, NodeStore.Wired, NodeStore.Snapshot, Topology.Valid, Fits;
      OwnEntry(t, s);
      CommandCases(t, s.Snapshot(), id);
      if !working { return; }
      EnterWork(t, s, false, Done);
      OwnEntry(t, s);
      if rpc != null { FinishChildren(t, s); }
      RecomputeAndReport(t, s);
    }

    method Fail(ghost t: Hierarchy, s: NodeStore, severity: FaultLevel)
      requires Member(t, s)
      modifies s.Repr, s`trace
      ensures s.Wired(t)
      ensures s.Snapshot() == PlantModel.Fail(t, old(s.Snapshot()), id, severity)
    {
      hide Recompute, WorstOf, NodeStore.Wired, NodeStore.Views, Topology.Valid, Fits;
      OwnEntry(t, s);
      ownFault := WorstOf(ownFault, severity);
      s.WiringKept(t);
      s.EntryChanged(id);
      assert s.Snapshot() == SetCore(old(s.Snapshot()), id, View().core);
      RecomputeAndReport(t, s);
    }

    method ClearFault(ghost t: Hierarchy, s: NodeStore)
      requires Member(t, s)
      modifies s.Repr, s`trace
      ensures s.Wired(t)
      ensures s.Snapshot() == PlantModel.ClearFault(t, old(s.Snapshot()), id)
    {
      hide Recompute, NodeStore.Wired, NodeStore.Views, Topology.Valid, Fits;
      OwnEntry(t, s);
      if ownFault == NoFault { return; }
      ownFault := NoFault;
      s.WiringKept(t);
      s.EntryChanged(id);
      assert s.Snapshot() == SetCore(old(s.Snapshot()), id, View().core);
      RecomputeAndReport(t, s);
    }
  }

  class PlantController {
    const store: NodeStore

    constructor (store: NodeStore)
      ensures this.store == store
    {
      this.store := store;
    }

    method RunToReady(ghost t: Hierarchy, root: Id)
      requires store.Wired(t)
      modifies store.Repr, store`trace
      ensures store.Wired(t)
      ensures root in t.kids ==>
        store.Snapshot() == PlantModel.RunToReady(t, old(store.Snapshot()), root, MAX_ROUNDS)
      ensures root !in t.kids ==> store.Snapshot() == old(store.Snapshot())
    {
      hide PlantModel.Advance, NodeStore.Wired, NodeStore.Views, Topology.Valid, Fits;
      store.Found(t, root);
      var n := store.At(root);
      if n == null { return; }
      n.OwnEntry(t, store);
      ghost var before := store.Snapshot();
      var guard := 0;
      while !n.ready && guard < 100
        invariant guard <= 100 && n.Member(t, store) && n.id == root && Fits(t, store.Snapshot())
        invariant PlantModel.RunToReady(t, store.Snapshot(), root, MAX_ROUNDS - guard)
                  == PlantModel.RunToReady(t, before, root, MAX_ROUNDS)
      {
        n.OwnEntry(t, store);
        guard := guard + 1;
        n.Advance(t, store);
        n.OwnEntry(t, store);
      }
      n.OwnEntry(t, store);
    }

    method StartWork(ghost t: Hierarchy, root: Id)
      requires store.Wired(t)
      modifies store.Repr, store`trace
      ensures store.Wired(t)
      ensures store.Snapshot() == Execute(t, old(store.Snapshot()), StartCmd(root))
    {
      hide PlantModel.Advance, PlantModel.StartWork, PlantModel.FinishWork, PlantModel.Fail, PlantModel.ClearFault,
        NodeStore.Wired, NodeStore.Views, Topology.Valid, Fits;
      store.Found(t, root);
      var n := store.At(root);
      if n != null { n.StartWork(t, store); }
    }

    method FinishWork(ghost t: Hierarchy, root: Id)
      requires store.Wired(t)
      modifies store.Repr, store`trace
      ensures store.Wired(t)
      ensures store.Snapshot() == Execute(t, old(store.Snapshot()), FinishCmd(root))
    {
      hide PlantModel.Advance, PlantModel.StartWork, PlantModel.FinishWork, PlantModel.Fail, PlantModel.ClearFault,
        NodeStore.Wired, NodeStore.Views, Topology.Valid, Fits;
      store.Found(t, root);
      var n := store.At(root);
      if n != null { n.FinishWork(t, store); }
    }

    method Fail(ghost t: Hierarchy, id: Id, severity: FaultLevel)
      requires store.Wired(t)
      modifies store.Repr, store`trace
      ensures store.Wired(t)
      ensures store.Snapshot() == Execute(t, old(store.Snapshot()), FailCmd(id, severity))
    {
      hide PlantModel.Advance, PlantModel.StartWork, PlantModel.FinishWork, PlantModel.Fail, PlantModel.ClearFault,
        NodeStore.Wired, NodeStore.Views, Topology.Valid, Fits;
      store.Found(t, id);
      var n := store.At(id);
      if n != null { n.Fail(t, store, severity); }
    }

    method ClearFault(ghost t: Hierarchy, id: Id)
      requires store.Wired(t)
      modifies store.Repr, store`trace
      ensures store.Wired(t)
      ensures store.Snapshot() == Execute(t, old(store.Snapshot()), ClearCmd(id))
    {
      hide PlantModel.Advance, PlantModel.StartWork, PlantModel.FinishWork, PlantModel.Fail, PlantModel.ClearFault,
        NodeStore.Wired, NodeStore.Views, Topology.Valid, Fits;
      store.Found(t, id);
      var n := store.At(id);
      if n != null { n.ClearFault(t, store); }
    }
  }
}
