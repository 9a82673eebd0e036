/** What an open gate guarantees about the planned configurations: a local target ends up in
    one device group of its node, and every other group stays as it was, with the exact exceptions. */
module AluaExclusive {
  import opened Sequences
  import opened Collation
  import opened Text
  import opened AluaCompare
  import opened AluaPlan
  import opened AluaPreflight

  /** Exactly one group lists the target. */
  ghost predicate ListedOnce(groups: seq<ConfGroup>, t: string) {
    exists i :: 0 <= i < |groups| && Lists(groups[i], t)
                && forall j :: 0 <= j < |groups| && Lists(groups[j], t) ==> j == i
  }

  /** Some group without a name lists the target. */
  ghost predicate ListedUnnamed(groups: seq<ConfGroup>, t: string) {
    exists g :: g in groups && g.name == "" && Lists(g, t)
  }

  /** Some group other than the first one of that name lists the target. */
  ghost predicate ListedElsewhere(groups: seq<ConfGroup>, name: string, t: string) {
    exists i :: 0 <= i < |groups| && i != GroupIndex(groups, name) && Lists(groups[i], t)
  }

  /** A group of that name, but not the first one, lists the target. */
  ghost predicate ListedByRepeat(groups: seq<ConfGroup>, name: string, t: string) {
    exists i :: 0 <= i < |groups| && i != GroupIndex(groups, name) && groups[i].name == name && Lists(groups[i], t)
  }

  /** `after` differs from `before` in one group of that name only: the first one, or else one at the end. */
  ghost predicate OthersKept(before: seq<ConfGroup>, after: seq<ConfGroup>, name: string) {
    var k := GroupIndex(before, name);
    && |after| == |before| + (if k == -1 then 1 else 0)
    && (forall i :: 0 <= i < |before| && i != k ==> after[i] == before[i])
    && after[if k == -1 then |before| else k].name == name
  }

  lemma {:induction false} GroupOfTargetExact(groups: seq<ConfGroup>, t: string, except: Option<string>)
    requires except.Some? ==> except.value != ""
    ensures var r := GroupOfTarget(groups, t, except);
            && (r.None? <==> forall g :: g in groups && Lists(g, t) ==> except == Some(g.name))
            && (r.Some? ==> exists g :: g in groups && g.name == r.value && Lists(g, t))
  {
    if groups == [] {
    } else {
      GroupOfTargetExact(groups[1..], t, except);
      assert forall g :: g in groups <==> g == groups[0] || g in groups[1..];
    }
  }

  lemma UpsertOthers(groups: seq<ConfGroup>, dg: ConfGroup, mode: Mode)
    requires Upserted(groups, dg, mode).Ok?
    ensures OthersKept(groups, Upserted(groups, dg, mode).value, dg.name)
  {
  }

  lemma OnceAt(after: seq<ConfGroup>, t: string, k: nat)
    requires k < |after| && Lists(after[k], t)
    ensures ListedOnce(after, t) <==> forall j :: 0 <= j < |after| && j != k ==> !Lists(after[j], t)
  {
  }

  lemma ReplacedOnce(groups: seq<ConfGroup>, dg: ConfGroup, k: nat, t: string)
    requires k < |groups| && Lists(dg, t)
    ensures ListedOnce(groups[k := dg], t) <==> forall j :: 0 <= j < |groups| && j != k ==> !Lists(groups[j], t)
  {
    var after := groups[k := dg];
    OnceAt(after, t, k);
    assert forall j :: 0 <= j < |groups| && j != k ==> after[j] == groups[j];
  }

  lemma AppendedOnce(groups: seq<ConfGroup>, dg: ConfGroup, t: string)
    requires Lists(dg, t)
    ensures ListedOnce(groups + [dg], t) <==> forall j :: 0 <= j < |groups| ==> !Lists(groups[j], t)
  {
    var after := groups + [dg];
    OnceAt(after, t, |groups|);
    assert forall j :: 0 <= j < |groups| ==> after[j] == groups[j];
  }

  /** Putting in a group that lists the target: it is listed once exactly when no group but the one that
      is replaced listed it before. */
  lemma UpsertExclusive(groups: seq<ConfGroup>, dg: ConfGroup, mode: Mode, t: string)
    requires Upserted(groups, dg, mode).Ok? && Lists(dg, t)
    ensures ListedOnce(Upserted(groups, dg, mode).value, t) <==> !ListedElsewhere(groups, dg.name, t)
  {
    var i := GroupIndex(groups, dg.name);
    if i == -1 {
      AppendedOnce(groups, dg, t);
    } else {
      ReplacedOnce(groups, dg, i, t);
    }
  }

  /** A planned node, as it was planned for one of the inputs. */
  ghost predicate PlannedFrom(np: NodePlan, input: NodeInput, le: Order, req: Request) {
    && np.nodeId == input.nodeId
    && np.deviceGroup.name == req.deviceGroupName
    && np.deviceGroup.targetGroups != []
    && np.deviceGroup.targetGroups[0].targets == LocalTargets(le, req, np.nodeId)
    && Upserted(input.config.deviceGroups, np.deviceGroup, req.mode) == Ok(np.after.deviceGroups)
  }

  ghost predicate PlannedFor(np: NodePlan, n: NodeContext, le: Order, req: Request) {
    PlannedFrom(np, n.input, le, req)
  }

  /** What the blockers of one assignment say when there are none. */
  lemma AssignmentClear(nodes: seq<NodeContext>, draft: Draft, n: NodeContext, a: Assignment)
    requires AssignmentBlockers(nodes, draft)(a) == []
    requires Find(ContextNamed(a.nodeId), nodes) == Some(n) && n.sshReady
    ensures var other := GroupOfTarget(n.input.config.deviceGroups, a.targetName,
                                       if draft.Replaces() then draft.deviceGroupName else None);
            other.None? || other.value == ""
  {
  }

  /** If no group of another name lists the target but perhaps unnamed ones, it is listed elsewhere
      exactly by an unnamed group or by a later group of the same name. */
  lemma ElsewhereExact(groups: seq<ConfGroup>, name: string, t: string, except: Option<string>)
    requires name != "" && (except == None || except == Some(name))
    requires var other := GroupOfTarget(groups, t, except); other.None? || other.value == ""
    ensures ListedElsewhere(groups, name, t) <==> ListedUnnamed(groups, t) || ListedByRepeat(groups, name, t)
  {
    GroupOfTargetExact(groups, t, except);
    if i :| 0 <= i < |groups| && i != GroupIndex(groups, name) && Lists(groups[i], t) && groups[i].name != name {
      assert groups[i] in groups;
    }
    if ListedUnnamed(groups, t) {
      var g :| g in groups && g.name == "" && Lists(g, t);
      var i :| 0 <= i < |groups| && groups[i] == g;
    }
  }

  /** Where the target is listed once in the planned configuration. */
  ghost predicate OnceUnless(before: seq<ConfGroup>, after: seq<ConfGroup>, name: string, t: string) {
    ListedOnce(after, t) <==> !ListedUnnamed(before, t) && !ListedByRepeat(before, name, t)
  }

  /** One planned node. */
  lemma NodeExclusive(le: Order, nodes: seq<NodeContext>, draft: Draft, n: NodeContext, np: NodePlan, t: string)
    requires draft.Complete().Some? && draft.deviceGroupName.value != ""
    requires PlannedFor(np, n, le, draft.Complete().value)
    requires n in nodes && Find(ContextNamed(np.nodeId), nodes) == Some(n) && n.sshReady
    requires forall a :: a in draft.assignments ==> AssignmentBlockers(nodes, draft)(a) == []
    requires t in LocalTargets(le, draft.Complete().value, np.nodeId)
    ensures OnceUnless(n.input.config.deviceGroups, np.after.deviceGroups, draft.deviceGroupName.value, t)
  {
    var req, groups := draft.Complete().value, n.input.config.deviceGroups;
    LocalTargetsMember(le, req, np.nodeId, t);
    var a :| a in req.assignments && a.nodeId == np.nodeId && a.targetName == t;
    AssignmentClear(nodes, draft, n, a);
    assert np.deviceGroup.targetGroups[0] in np.deviceGroup.targetGroups;
    UpsertExclusive(groups, np.deviceGroup, req.mode, t);
    ElsewhereExact(groups, req.deviceGroupName, t, if draft.Replaces() then draft.deviceGroupName else None);
  }

  lemma GateClear(le: Order, nodeCount: nat, nodes: seq<NodeContext>, draft: Draft)
    requires Gate(le, nodeCount, nodes, draft).ok
    ensures FlatMap(NodeBlockers(), nodes) == []
    ensures FlatMap(AssignmentBlockers(nodes, draft), draft.assignments) == []
    ensures RequestBlockers(draft) == [] && (PlanTried(nodeCount, draft) ==> !PlanFails(le, nodes, draft))
  {
  }

  lemma NodePlanFrom(le: Order, input: NodeInput, req: Request, peerId: string, isPrimary: bool)
    requires BuildNodePlan(le, input, req, peerId, isPrimary).Ok?
    ensures PlannedFrom(BuildNodePlan(le, input, req, peerId, isPrimary).value, input, le, req)
  {
  }

  lemma ClusterPlanParts(le: Order, req: Request, inputs: seq<NodeInput>)
    requires BuildClusterPlan(le, req, inputs).Ok?
    ensures ResolvePrimaryAndPeer(inputs, req.primaryNodeId).Ok?
    ensures var (primary, peer) := ResolvePrimaryAndPeer(inputs, req.primaryNodeId).value;
            var nodes := BuildClusterPlan(le, req, inputs).value.nodes;
            && BuildNodePlan(le, primary, req, peer.nodeId, true) == Ok(nodes[0])
            && BuildNodePlan(le, peer, req, primary.nodeId, false) == Ok(nodes[1])
  {
  }

  lemma ClusterPlanFrom(le: Order, req: Request, inputs: seq<NodeInput>, k: nat) returns (chosen: NodeInput)
    requires BuildClusterPlan(le, req, inputs).Ok? && k < 2
    ensures ResolvePrimaryAndPeer(inputs, req.primaryNodeId).Ok?
    ensures var (primary, peer) := ResolvePrimaryAndPeer(inputs, req.primaryNodeId).value;
            chosen == if k == 0 then primary else peer
    ensures PlannedFrom(BuildClusterPlan(le, req, inputs).value.nodes[k], chosen, le, req)
  {
    ClusterPlanParts(le, req, inputs);
    var (primary, peer) := ResolvePrimaryAndPeer(inputs, req.primaryNodeId).value;
    if k == 0 {
      NodePlanFrom(le, primary, req, peer.nodeId, true);
      chosen := primary;
    } else {
      NodePlanFrom(le, peer, req, primary.nodeId, false);
      chosen := peer;
    }
  }

  lemma ContextOfInput(nodes: seq<NodeContext>, req: Request, chosen: NodeInput) returns (n: NodeContext)
    requires var r := ResolvePrimaryAndPeer(Map(Inputs(), nodes), req.primaryNodeId);
             r.Ok? && (chosen == r.value.0 || chosen == r.value.1)
    ensures n in nodes && n.input == chosen && Find(ContextNamed(chosen.nodeId), nodes) == Some(n)
  {
    var inputs := Map(Inputs(), nodes);
    var i: nat := if chosen == inputs[0] then 0 else 1;
    n := nodes[i];
    assert inputs[i] == n.input;
    if i == 1 {
      assert inputs[0].nodeId != inputs[1].nodeId;
    }
    FindFirst(ContextNamed(chosen.nodeId), nodes, i);
  }

  /** The inputs of the planner are those of the two contexts, under their own ids. */
  lemma PlanOfContexts(le: Order, nodes: seq<NodeContext>, req: Request, k: nat) returns (n: NodeContext)
    requires BuildClusterPlan(le, req, Map(Inputs(), nodes)).Ok? && k < 2
    ensures var np := BuildClusterPlan(le, req, Map(Inputs(), nodes)).value.nodes[k];
            n in nodes && PlannedFor(np, n, le, req) && Find(ContextNamed(np.nodeId), nodes) == Some(n)
  {
    var chosen := ClusterPlanFrom(le, req, Map(Inputs(), nodes), k);
    n := ContextOfInput(nodes, req, chosen);
  }

  /** The configuration planned for a node, compared with the one it has. */
  ghost predicate Exclusive(le: Order, req: Request, n: NodeContext, np: NodePlan) {
    var before, after := n.input.config.deviceGroups, np.after.deviceGroups;
    && n.input.nodeId == np.nodeId
    && OthersKept(before, after, req.deviceGroupName)
    && (req.mode == Create ==> GroupIndex(before, req.deviceGroupName) == -1)
    && forall t :: t in LocalTargets(le, req, np.nodeId) ==> OnceUnless(before, after, req.deviceGroupName, t)
  }

  lemma PlannedOthers(le: Order, req: Request, n: NodeContext, np: NodePlan)
    requires PlannedFor(np, n, le, req)
    ensures OthersKept(n.input.config.deviceGroups, np.after.deviceGroups, req.deviceGroupName)
    ensures req.mode == Create ==> GroupIndex(n.input.config.deviceGroups, req.deviceGroupName) == -1
  {
    UpsertOthers(n.input.config.deviceGroups, np.deviceGroup, req.mode);
  }

  lemma NodeOutcome(le: Order, nodes: seq<NodeContext>, draft: Draft, n: NodeContext, np: NodePlan)
    requires draft.Complete().Some? && draft.deviceGroupName.value != ""
    requires PlannedFor(np, n, le, draft.Complete().value)
    requires n in nodes && Find(ContextNamed(np.nodeId), nodes) == Some(n)
    requires FlatMap(NodeBlockers(), nodes) == []
    requires FlatMap(AssignmentBlockers(nodes, draft), draft.assignments) == []
    ensures Exclusive(le, draft.Complete().value, n, np)
  {
    FlatMapEmpty(NodeBlockers(), nodes);
    assert n.sshReady;
    FlatMapEmpty(AssignmentBlockers(nodes, draft), draft.assignments);
    PlannedOthers(le, draft.Complete().value, n, np);
    forall t | t in LocalTargets(le, draft.Complete().value, np.nodeId)
      ensures OnceUnless(n.input.config.deviceGroups, np.after.deviceGroups, draft.deviceGroupName.value, t)
    {
      NodeExclusive(le, nodes, draft, n, np, t);
    }
  }

  /** After an open gate on a complete request, planning succeeds, and on both nodes: all groups but one
      are untouched, and a target assigned to the node as local is listed by exactly one device group,
      unless a group without a name or a later group of the requested name listed it before. */
  lemma LocalTargetsExclusive(le: Order, nodeCount: nat, nodes: seq<NodeContext>, draft: Draft, k: nat)
    returns (n: NodeContext)
    requires Gate(le, nodeCount, nodes, draft).ok && PlanTried(nodeCount, draft) && k < 2
    ensures draft.Complete().Some? && BuildClusterPlan(le, draft.Complete().value, Map(Inputs(), nodes)).Ok?
    ensures n in nodes
    ensures var req := draft.Complete().value;
            Exclusive(le, req, n, BuildClusterPlan(le, req, Map(Inputs(), nodes)).value.nodes[k])
  {
    GateClear(le, nodeCount, nodes, draft);
    var req := draft.Complete().value;
    var np := BuildClusterPlan(le, req, Map(Inputs(), nodes)).value.nodes[k];
    n := PlanOfContexts(le, nodes, req, k);
    NodeOutcome(le, nodes, draft, n, np);
  }

  /** What holds of a node without unnamed groups. */
  ghost predicate ExclusiveNamed(le: Order, req: Request, n: NodeContext, np: NodePlan) {
    var before, after := n.input.config.deviceGroups, np.after.deviceGroups;
    && n.input.nodeId == np.nodeId
    && OthersKept(before, after, req.deviceGroupName)
    && forall t :: t in LocalTargets(le, req, np.nodeId) ==>
         && (ListedOnce(after, t) <==> !ListedByRepeat(before, req.deviceGroupName, t))
         && (req.mode == Create ==> ListedOnce(after, t))
  }

  lemma NamedOutcome(le: Order, req: Request, n: NodeContext, np: NodePlan)
    requires Exclusive(le, req, n, np)
    requires forall g :: g in n.input.config.deviceGroups ==> g.name != ""
    ensures ExclusiveNamed(le, req, n, np)
  {
    var before, after := n.input.config.deviceGroups, np.after.deviceGroups;
    forall t | t in LocalTargets(le, req, np.nodeId)
      ensures ListedOnce(after, t) <==> !ListedByRepeat(before, req.deviceGroupName, t)
      ensures req.mode == Create ==> ListedOnce(after, t)
    {
      assert OnceUnless(before, after, req.deviceGroupName, t);
    }
  }

  /** The configurations that the gate sees have been parsed from `scst.conf`, where a group cannot be
      without a name. For them every target assigned to the node as local ends up in exactly one device
      group when a group is created; when one is replaced, exactly unless a later group of its name
      lists the target. */
  lemma LocalTargetsOnce(le: Order, nodeCount: nat, nodes: seq<NodeContext>, draft: Draft, k: nat)
    returns (n: NodeContext)
    requires Gate(le, nodeCount, nodes, draft).ok && PlanTried(nodeCount, draft) && k < 2
    requires forall n, g :: n in nodes && g in n.input.config.deviceGroups ==> g.name != ""
    ensures draft.Complete().Some? && BuildClusterPlan(le, draft.Complete().value, Map(Inputs(), nodes)).Ok?
    ensures n in nodes
    ensures var req := draft.Complete().value;
            ExclusiveNamed(le, req, n, BuildClusterPlan(le, req, Map(Inputs(), nodes)).value.nodes[k])
  {
    n := LocalTargetsExclusive(le, nodeCount, nodes, draft, k);
    var req := draft.Complete().value;
    NamedOutcome(le, req, n, BuildClusterPlan(le, req, Map(Inputs(), nodes)).value.nodes[k]);
  }

  // --- The name of the planned group ----------------------------------------------------

  lemma ValidIsTrimmed(name: string)
    requires ValidGroupName(name)
    ensures Trim(name) == name
  {
    assert NameChar(name[|name| - 1]) && !IsSpace(name[0]) && !IsSpace(name[|name| - 1]);
    assert TrimStart(name) == name;
  }

  lemma NameExact(name: string)
    requires ValidGroupName(Trim(name))
    ensures ValidGroupName(name) <==> Trim(name) == name
  {
    if ValidGroupName(name) {
      ValidIsTrimmed(name);
    }
  }

  lemma PlannedNames(le: Order, req: Request, inputs: seq<NodeInput>)
    requires BuildClusterPlan(le, req, inputs).Ok?
    ensures forall p :: p in BuildClusterPlan(le, req, inputs).value.nodes ==> p.deviceGroup.name == req.deviceGroupName
  {
  }

  lemma GateName(le: Order, nodeCount: nat, nodes: seq<NodeContext>, draft: Draft)
    requires Gate(le, nodeCount, nodes, draft).ok && draft.deviceGroupName.Some?
    ensures ValidGroupName(Trim(draft.deviceGroupName.value))
  {
    GateClear(le, nodeCount, nodes, draft);
  }

  /** The gate checks the trimmed name and the plan uses the name as it was given. So after an open gate
      the planned groups have a valid name exactly when the given one has no white space around it. */
  lemma GateNameExact(le: Order, nodeCount: nat, nodes: seq<NodeContext>, draft: Draft, p: NodePlan)
    requires Gate(le, nodeCount, nodes, draft).ok && draft.Complete().Some?
    requires BuildClusterPlan(le, draft.Complete().value, Map(Inputs(), nodes)).Ok?
    requires p in BuildClusterPlan(le, draft.Complete().value, Map(Inputs(), nodes)).value.nodes
    ensures ValidGroupName(p.deviceGroup.name) <==> Trim(draft.deviceGroupName.value) == draft.deviceGroupName.value
  {
    GateName(le, nodeCount, nodes, draft);
    PlannedNames(le, draft.Complete().value, Map(Inputs(), nodes));
    NameExact(draft.deviceGroupName.value);
  }
}
