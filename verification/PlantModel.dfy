/** The hierarchical plant protocol on values: what one node stores, what a
    command does to the whole plant, and how a report climbs the tree.
    PlantNodes holds the objects that update these fields in place; each of its
    methods is proved to compute the function of the same name here. */
module PlantModel {

  type Id = nat

  datatype Step = Unknown | Power | Preheat | Clean | SelfCheck | Home | Ready | Work | Done

  datatype FaultLevel = NoFault | Alarm | Blocking

  function Severity(f: FaultLevel): nat {
    match f
    case NoFault => 0
    case Alarm => 1
    case Blocking => 2
  }

  function WorstOf(a: FaultLevel, b: FaultLevel): FaultLevel {
    if Severity(a) > Severity(b) then a else b
  }

  /** Whether a fault of this severity stops production. */
  predicate AffectsProduction(severity: FaultLevel, criticalToJob: bool) {
    match severity
    case Blocking => true
    case Alarm => criticalToJob
    case NoFault => false
  }

  datatype ProcessReport = ProcessReport(
    origin: Id,
    step: Step,
    fault: FaultLevel,
    ready: bool,
    blocking: bool,
    affectsProduction: bool)

  // ---- Report signatures ----

  function StepCode(s: Step): bv64 {
    match s
    case Unknown => 0
    case Power => 1
    case Preheat => 2
    case Clean => 3
    case SelfCheck => 4
    case Home => 5
    case Ready => 6
    case Work => 7
    case Done => 8
  }

  function FaultCode(f: FaultLevel): bv64 {
    match f
    case NoFault => 0
    case Alarm => 1
    case Blocking => 2
  }

  function Bit(b: bool): bv64 { if b then 1 else 0 }

  /** What a node compares with its last published value before publishing. */
  function Signature(r: ProcessReport): bv64 {
    (StepCode(r.step) << 24) | (FaultCode(r.fault) << 16) | (Bit(r.ready) << 8)
    | (Bit(r.affectsProduction) << 4) | Bit(r.blocking)
  }

  /** The initial value of a node's last published signature. */
  const NEVER_PUBLISHED: bv64 := 0xFFFF_FFFF_FFFF_FFFF

  function SignedReady(sig: bv64): bool { sig != NEVER_PUBLISHED && (sig >> 8) & 1 == 1 }

  function SignedBlocking(sig: bv64): bool { sig != NEVER_PUBLISHED && sig & 1 == 1 }

  /** Publishing can be suppressed only when nothing in the report changed: the
      signature determines every field but the origin, and no report has the
      initial signature. */
  lemma SignatureInjective(a: ProcessReport, b: ProcessReport)
    ensures Signature(a) == Signature(b) <==> a.(origin := b.origin) == b
    ensures Signature(a) != NEVER_PUBLISHED
    ensures SignedReady(Signature(a)) == a.ready
    ensures SignedBlocking(Signature(a)) == a.blocking
  {
    SignatureFields(a);
    SignatureFields(b);
  }

  lemma SignatureFields(r: ProcessReport)
    ensures Signature(r) >> 24 == StepCode(r.step)
    ensures (Signature(r) >> 16) & 0xFF == FaultCode(r.fault)
    ensures (Signature(r) >> 8) & 1 == Bit(r.ready)
    ensures (Signature(r) >> 4) & 1 == Bit(r.affectsProduction)
    ensures Signature(r) & 1 == Bit(r.blocking)
    ensures Signature(r) != NEVER_PUBLISHED
  {
  }

  // ---- The tree ----

  /** How the composition root wires the nodes. `depth` and `height` witness
      that the upstream links form a forest. */
  datatype Topology = Topology(
    kids: map<Id, seq<Id>>,
    up: map<Id, Id>,
    depth: map<Id, nat>,
    height: nat)
  {
    ghost predicate Valid() {
      && depth.Keys == kids.Keys
      && up.Keys <= kids.Keys
      && (forall p, c | p in kids && c in kids[p] :: c in up && up[c] == p)
      && (forall c {:trigger up[c]} | c in up ::
            up[c] in kids && c in kids[up[c]] && depth[up[c]] < depth[c])
      && (forall p, i, j | p in kids && 0 <= i < j < |kids[p]| :: kids[p][i] != kids[p][j])
      && (forall n | n in depth :: depth[n] <= height)
    }
  }

  type Hierarchy = t: Topology | t.Valid() witness Topology(map[], map[], map[], 0)

  // ---- One node ----

  /** What a node knows of itself. */
  datatype Core = Core(
    critical: bool,
    plan: seq<Step>,
    pos: nat,
    step: Step,
    ready: bool,
    working: bool,
    fault: FaultLevel)

  /** A node: its own state, and what it derives from its children's reports. */
  datatype Node = Node(
    core: Core,
    childReady: map<Id, bool>,
    childBlock: map<Id, bool>,
    childBlocked: bool,
    blocking: bool,
    lastSig: bv64)

  function FreshNode(critical: bool, plan: seq<Step>): Node {
    Node(Core(critical, plan, 0, Unknown, false, false, NoFault), map[], map[], false, false, NEVER_PUBLISHED)
  }

  function Cached(m: map<Id, bool>, c: Id): bool { c in m && m[c] }

  predicate AllReady(kids: seq<Id>, childReady: map<Id, bool>) {
    forall i | 0 <= i < |kids| :: Cached(childReady, kids[i])
  }

  predicate AnyBlocked(childBlock: map<Id, bool>) {
    exists c | c in childBlock :: childBlock[c]
  }

  /** A node's own plan step: the next step of the plan, READY once it is exhausted. */
  function Promote(c: Core): Core {
    var c' := if c.pos < |c.plan| then c.(step := c.plan[c.pos], pos := c.pos + 1) else c;
    if c'.pos >= |c'.plan| && !c'.ready then c'.(ready := true, step := Ready) else c'
  }

  function Aggregate(n: Node): Node {
    var b := AnyBlocked(n.childBlock);
    n.(childBlocked := b, blocking := AffectsProduction(n.core.fault, n.core.critical) || b)
  }

  function BuildReport(id: Id, n: Node): ProcessReport {
    ProcessReport(id, n.core.step, n.core.fault, n.core.ready, n.blocking, n.blocking)
  }

  // ---- The whole plant ----

  /** All nodes by id, and every report that was published, in order. */
  datatype Plant = Plant(nodes: map<Id, Node>, trace: seq<ProcessReport>)

  ghost predicate Fits(t: Hierarchy, s: Plant) { s.nodes.Keys == t.kids.Keys }

  function SetCore(s: Plant, id: Id, c: Core): (r: Plant)
    requires id in s.nodes
    ensures r.nodes.Keys == s.nodes.Keys
  {
    s.(nodes := s.nodes[id := s.nodes[id].(core := c)])
  }

  /** Store the report of a child in its parent's view. */
  function Receive(s: Plant, p: Id, r: ProcessReport): (s': Plant)
    requires p in s.nodes
    ensures s'.nodes.Keys == s.nodes.Keys
  {
    var n := s.nodes[p];
    s.(nodes := s.nodes[p := n.(childReady := n.childReady[r.origin := r.ready],
                                childBlock := n.childBlock[r.origin := r.blocking])])
  }

  /** Refresh what a node derives from its fault and its view of the children. */
  function Refresh(s: Plant, id: Id): (r: Plant)
    requires id in s.nodes
    ensures r.nodes.Keys == s.nodes.Keys
  {
    s.(nodes := s.nodes[id := Aggregate(s.nodes[id])])
  }

  predicate Unchanged(s: Plant, id: Id)
    requires id in s.nodes
  {
    Signature(BuildReport(id, s.nodes[id])) == s.nodes[id].lastSig
  }

  /** Remember the signature of the present report and let the report out. */
  function Emit(s: Plant, id: Id): (r: Plant)
    requires id in s.nodes
    ensures r.nodes.Keys == s.nodes.Keys
  {
    var report := BuildReport(id, s.nodes[id]);
    Plant(s.nodes[id := s.nodes[id].(lastSig := Signature(report))], s.trace + [report])
  }

  /** What is left of a recomputation once the node is refreshed: nothing if the
      report is unchanged; otherwise it is let out, and stored by the parent. */
  ghost function Publish(t: Hierarchy, s: Plant, id: Id): (r: Plant)
    requires Fits(t, s) && id in s.nodes
    ensures Fits(t, r)
    decreases t.depth[id]
  {
    if Unchanged(s, id) then s
    else if id in t.up then
      var p := t.up[id];
      Publish(t, Refresh(Receive(Emit(s, id), p, BuildReport(id, s.nodes[id])), p), p)
    else Emit(s, id)
  }

  ghost function Recompute(t: Hierarchy, s: Plant, id: Id): (r: Plant)
    requires Fits(t, s) && id in s.nodes
    ensures Fits(t, r)
  {
    Publish(t, Refresh(s, id), id)
  }

  ghost function Report(t: Hierarchy, s: Plant, p: Id, r: ProcessReport): (s': Plant)
    requires Fits(t, s) && p in s.nodes
    ensures Fits(t, s')
  {
    Recompute(t, Receive(s, p, r), p)
  }

  lemma PublishCases(t: Hierarchy, s: Plant, id: Id)
    requires Fits(t, s) && id in s.nodes
    ensures Publish(t, s, id) ==
      if Unchanged(s, id) then s
      else if id in t.up then Report(t, Emit(s, id), t.up[id], BuildReport(id, s.nodes[id]))
      else Emit(s, id)
  {
  }

  ghost function Advance(t: Hierarchy, s: Plant, id: Id): (r: Plant)
    requires Fits(t, s) && id in s.nodes
    ensures Fits(t, r)
    decreases t.height - t.depth[id], |t.kids[id]| + 1
  {
    var n := s.nodes[id];
    if n.core.fault != NoFault || n.blocking then
      s
    else if t.kids[id] != [] && !AllReady(t.kids[id], n.childReady) then
      AdvanceKids(t, s, id, |t.kids[id]|)
    else
      Recompute(t, SetCore(s, id, Promote(n.core)), id)
  }

  ghost function AdvanceKids(t: Hierarchy, s: Plant, id: Id, k: nat): (r: Plant)
    requires Fits(t, s) && id in s.nodes && k <= |t.kids[id]|
    ensures Fits(t, r)
    decreases t.height - t.depth[id], k
  {
    if k == 0 then s
    else
      var c := t.kids[id][k - 1];
      assert c in t.kids[id] && t.depth[t.up[c]] < t.depth[c] <= t.height;
      Advance(t, AdvanceKids(t, s, id, k - 1), c)
  }

  ghost function StartWork(t: Hierarchy, s: Plant, id: Id): (r: Plant)
    requires Fits(t, s) && id in s.nodes
    ensures Fits(t, r)
    decreases t.height - t.depth[id], |t.kids[id]| + 1
  {
    var n := s.nodes[id];
    if !n.core.ready || n.blocking then
      s
    else
      var s1 := SetCore(s, id, n.core.(working := true, step := Work));
      Recompute(t, StartKids(t, s1, id, |t.kids[id]|), id)
  }

  ghost function StartKids(t: Hierarchy, s: Plant, id: Id, k: nat): (r: Plant)
    requires Fits(t, s) && id in s.nodes && k <= |t.kids[id]|
    ensures Fits(t, r)
    decreases t.height - t.depth[id], k
  {
    if k == 0 then s
    else
      var c := t.kids[id][k - 1];
      assert c in t.kids[id] && t.depth[t.up[c]] < t.depth[c] <= t.height;
      StartWork(t, StartKids(t, s, id, k - 1), c)
  }

  ghost function FinishWork(t: Hierarchy, s: Plant, id: Id): (r: Plant)
    requires Fits(t, s) && id in s.nodes
    ensures Fits(t, r)
    decreases t.height - t.depth[id], |t.kids[id]| + 1
  {
    var n := s.nodes[id];
    if !n.core.working then
      s
    else
      var s1 := SetCore(s, id, n.core.(working := false, step := Done));
      Recompute(t, FinishKids(t, s1, id, |t.kids[id]|), id)
  }

  ghost function FinishKids(t: Hierarchy, s: Plant, id: Id, k: nat): (r: Plant)
    requires Fits(t, s) && id in s.nodes && k <= |t.kids[id]|
    ensures Fits(t, r)
    decreases t.height - t.depth[id], k
  {
    if k == 0 then s
    else
      var c := t.kids[id][k - 1];
      assert c in t.kids[id] && t.depth[t.up[c]] < t.depth[c] <= t.height;
      FinishWork(t, FinishKids(t, s, id, k - 1), c)
  }

  ghost function Fail(t: Hierarchy, s: Plant, id: Id, severity: FaultLevel): (r: Plant)
    requires Fits(t, s) && id in s.nodes
    ensures Fits(t, r)
  {
    var c := s.nodes[id].core;
    Recompute(t, SetCore(s, id, c.(fault := WorstOf(c.fault, severity))), id)
  }

  ghost function ClearFault(t: Hierarchy, s: Plant, id: Id): (r: Plant)
    requires Fits(t, s) && id in s.nodes
    ensures Fits(t, r)
  {
    var c := s.nodes[id].core;
    if c.fault == NoFault then s else Recompute(t, SetCore(s, id, c.(fault := NoFault)), id)
  }

  // ---- Runs ----

  /** A command from outside, addressed to any node. */
  datatype Command =
    | AdvanceCmd(id: Id)
    | StartCmd(id: Id)
    | FinishCmd(id: Id)
    | FailCmd(id: Id, severity: FaultLevel)
    | ClearCmd(id: Id)

  /** Looking up an unknown id yields no node, and the command is dropped. */
  ghost function Execute(t: Hierarchy, s: Plant, cmd: Command): (r: Plant)
    requires Fits(t, s)
    ensures Fits(t, r)
  {
    if cmd.id !in s.nodes then s
    else
      match cmd
      case AdvanceCmd(id) => Advance(t, s, id)
      case StartCmd(id) => StartWork(t, s, id)
      case FinishCmd(id) => FinishWork(t, s, id)
      case FailCmd(id, severity) => Fail(t, s, id, severity)
      case ClearCmd(id) => ClearFault(t, s, id)
  }

  ghost function Run(t: Hierarchy, s: Plant, cmds: seq<Command>): (r: Plant)
    requires Fits(t, s)
    ensures Fits(t, r)
    decreases |cmds|
  {
    if cmds == [] then s else Execute(t, Run(t, s, cmds[..|cmds| - 1]), cmds[|cmds| - 1])
  }

  /** The downward commands, one level deep. */
  lemma CommandCases(t: Hierarchy, s: Plant, id: Id)
    requires Fits(t, s) && id in s.nodes
    ensures var n := s.nodes[id];
      && Advance(t, s, id) ==
         (if n.core.fault != NoFault || n.blocking then s
          else if t.kids[id] != [] && !AllReady(t.kids[id], n.childReady) then AdvanceKids(t, s, id, |t.kids[id]|)
          else Recompute(t, SetCore(s, id, Promote(n.core)), id))
      && StartWork(t, s, id) ==
         (if !n.core.ready || n.blocking then s
          else Recompute(t, StartKids(t, SetCore(s, id, n.core.(working := true, step := Work)), id, |t.kids[id]|), id))
      && FinishWork(t, s, id) ==
         (if !n.core.working then s
          else Recompute(t, FinishKids(t, SetCore(s, id, n.core.(working := false, step := Done)), id, |t.kids[id]|), id))
  {
  }

  lemma KidsNone(t: Hierarchy, s: Plant, id: Id)
    requires Fits(t, s) && id in s.nodes
    ensures AdvanceKids(t, s, id, 0) == StartKids(t, s, id, 0) == FinishKids(t, s, id, 0) == s
  {
  }

  /** Driving one child more is routing the command to it. */
  lemma KidsByCommands(t: Hierarchy, s: Plant, id: Id, k: nat)
    requires Fits(t, s) && id in s.nodes && k < |t.kids[id]|
    ensures var kid := t.kids[id][k];
      && kid in t.kids && t.depth[id] < t.depth[kid] <= t.height
      && AdvanceKids(t, s, id, k + 1) == Execute(t, AdvanceKids(t, s, id, k), AdvanceCmd(kid))
      && StartKids(t, s, id, k + 1) == Execute(t, StartKids(t, s, id, k), StartCmd(kid))
      && FinishKids(t, s, id, k + 1) == Execute(t, FinishKids(t, s, id, k), FinishCmd(kid))
  {
    var kid := t.kids[id][k];
    assert kid in t.kids[id] && t.depth[t.up[kid]] < t.depth[kid];
  }

  /** A plant as the composition root leaves it: nothing commanded yet. */
  ghost predicate Initial(t: Hierarchy, s: Plant) {
    && Fits(t, s)
    && (forall n | n in s.nodes :: s.nodes[n] == FreshNode(s.nodes[n].core.critical, s.nodes[n].core.plan))
  }

  /** The driving loop of the controller with `tries` rounds left. */
  ghost function RunToReady(t: Hierarchy, s: Plant, root: Id, tries: nat): (r: Plant)
    requires Fits(t, s) && root in s.nodes
    ensures Fits(t, r)
    decreases tries
  {
    if s.nodes[root].core.ready || tries == 0 then s
    else RunToReady(t, Advance(t, s, root), root, tries - 1)
  }

  const MAX_ROUNDS: nat := 100
}
