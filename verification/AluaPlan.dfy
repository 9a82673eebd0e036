/** The two-node ALUA planner (`server/utils/alua-wizard-plan.ts`) over the device groups of
    `scst.conf` (`server/utils/alua-scst-config.ts`). */
module AluaPlan {
  import opened Sequences
  import opened Collation
  import opened AluaModel
  import opened AluaCompare

  // --- scst.conf ------------------------------------------------------------------------

  datatype ConfTargetGroup = ConfTargetGroup(name: string, groupId: int, targets: seq<string>)
  datatype ConfGroup = ConfGroup(name: string, devices: seq<string>, targetGroups: seq<ConfTargetGroup>)
  datatype Handler = Handler(name: string, devices: seq<string>)
  datatype Driver = Driver(name: string, targets: seq<string>)
  datatype Config = Config(handlers: seq<Handler>, drivers: seq<Driver>, deviceGroups: seq<ConfGroup>)

  datatype Mode = Create | Replace

  datatype PlanError =
    | NeedTwoNodes | BadPrimary | NoPeer | MissingTarget(target: string, hostname: string) | GroupExists(name: string)

  const SYSTEM_DRIVER := "copy_manager"

  /** The target is offered by some driver that is not internal to SCST. */
  predicate TargetExists(c: Config, t: string) {
    exists d :: d in c.drivers && d.name != SYSTEM_DRIVER && t in d.targets
  }

  /** `findIndex(g => g.name === name)`. */
  function GroupIndex(groups: seq<ConfGroup>, name: string): (i: int)
    ensures -1 <= i < |groups|
    ensures i >= 0 ==> groups[i].name == name && forall j :: 0 <= j < i ==> groups[j].name != name
    ensures i == -1 ==> forall j :: 0 <= j < |groups| ==> groups[j].name != name
  {
    if groups == [] then -1
    else if groups[0].name == name then 0
    else
      var rest := GroupIndex(groups[1..], name);
      assert forall j :: 1 <= j < |groups| ==> groups[j] == groups[1..][j - 1];
      if rest == -1 then -1 else rest + 1
  }

  function Upserted(groups: seq<ConfGroup>, dg: ConfGroup, mode: Mode): (r: Result<seq<ConfGroup>, PlanError>)
    ensures r.Ok? ==> dg in r.value
  {
    var i := GroupIndex(groups, dg.name);
    if i == -1 then Ok(groups + [dg])
    else if mode == Replace then
      var replaced := groups[i := dg];
      assert replaced[i] == dg;
      Ok(replaced)
    else Err(GroupExists(dg.name))
  }

  /** The configuration object that the planner clones and changes in place. */
  class ScstConfig {
    const handlers: seq<Handler>
    const drivers: seq<Driver>
    var deviceGroups: seq<ConfGroup>

    function View(): Config
      reads this
    {
      Config(handlers, drivers, deviceGroups)
    }

    /** `structuredClone`. */
    constructor Clone(source: Config)
      ensures View() == source
    {
      handlers, drivers, deviceGroups := source.handlers, source.drivers, source.deviceGroups;
    }

    /** `upsertDeviceGroup`; an error leaves the object as it was. */
    method UpsertDeviceGroup(dg: ConfGroup, mode: Mode) returns (error: Option<PlanError>)
      modifies this
      ensures match Upserted(old(deviceGroups), dg, mode)
              case Ok(groups) => error.None? && deviceGroups == groups
              case Err(e) => error == Some(e) && deviceGroups == old(deviceGroups)
    {
      var i := 0;
      while i < |deviceGroups| && deviceGroups[i].name != dg.name
        invariant 0 <= i <= |deviceGroups|
        invariant forall j :: 0 <= j < i ==> deviceGroups[j].name != dg.name
      {
        i := i + 1;
      }
      if i == |deviceGroups| {
        deviceGroups := deviceGroups + [dg];
        return None;
      }
      if mode != Replace {
        return Some(GroupExists(dg.name));
      }
      deviceGroups := deviceGroups[i := dg];
      error := None;
    }
  }

  /** The name of the first device group, other than the excepted one, that lists the target.
      An excepted name that is empty excepts nothing. */
  function GroupOfTarget(groups: seq<ConfGroup>, t: string, except: Option<string>): Option<string> {
    if groups == [] then None
    else if (except.None? || except.value == "" || groups[0].name != except.value) && Lists(groups[0], t)
    then Some(groups[0].name)
    else GroupOfTarget(groups[1..], t, except)
  }

  predicate Lists(g: ConfGroup, t: string) {
    exists tg :: tg in g.targetGroups && t in tg.targets
  }

  method FindTargetInOtherDeviceGroups(c: Config, t: string, except: Option<string>) returns (r: Option<string>)
    ensures r == GroupOfTarget(c.deviceGroups, t, except)
  {
    var groups := c.deviceGroups;
    for i := 0 to |groups|
      invariant GroupOfTarget(groups, t, except) == GroupOfTarget(groups[i..], t, except)
    {
      var dg := groups[i];
      assert groups[i..][0] == dg && groups[i..][1..] == groups[i + 1..];
      if except.Some? && except.value != "" && dg.name == except.value {
        continue;
      }
      for j := 0 to |dg.targetGroups|
        invariant forall k :: 0 <= k < j ==> t !in dg.targetGroups[k].targets
      {
        if t in dg.targetGroups[j].targets {
          assert dg.targetGroups[j] in dg.targetGroups;
          return Some(dg.name);
        }
      }
    }
    r := None;
  }

  // --- The plan -------------------------------------------------------------------------

  datatype WizardRole = AssignLocal | AssignRemote
  datatype Assignment = Assignment(nodeId: string, targetName: string, role: WizardRole)

  datatype Request = Request(
    clusterId: string, primaryNodeId: Option<string>, deviceGroupName: string, deviceNames: seq<string>,
    localName: string, remoteName: string, localId: int, remoteId: int,
    assignments: seq<Assignment>, mode: Mode)

  datatype NodeInput = NodeInput(nodeId: string, hostname: string, config: Config)

  /** `scstConfAfter` is given by the configuration that is serialized. */
  datatype NodePlan = NodePlan(nodeId: string, hostname: string, deviceGroup: ConfGroup, after: Config)

  datatype Plan = Plan(
    clusterId: string, primaryNodeId: string, peerNodeId: string, nodes: seq<NodePlan>, preview: Comparison)

  function InputNamed(id: string): NodeInput -> bool { (n: NodeInput) => n.nodeId == id }
  function InputOther(id: string): NodeInput -> bool { (n: NodeInput) => n.nodeId != id }

  function ResolvePrimaryAndPeer(nodes: seq<NodeInput>, primaryNodeId: Option<string>)
    : (r: Result<(NodeInput, NodeInput), PlanError>)
    ensures r.Ok? ==> |nodes| == 2 && r.value.0.nodeId != r.value.1.nodeId
                      && (r.value == (nodes[0], nodes[1]) || r.value == (nodes[1], nodes[0]))
  {
    if |nodes| != 2 then Err(NeedTwoNodes)
    else
      var primary :=
        if primaryNodeId.Some? && primaryNodeId.value != ""
        then Find(InputNamed(primaryNodeId.value), nodes) else Some(nodes[0]);
      if primary.None? then Err(BadPrimary)
      else
        var peer := Find(InputOther(primary.value.nodeId), nodes);
        if peer.None? then Err(NoPeer) else Ok((primary.value, peer.value))
  }

  function LocalTo(nodeId: string): Assignment -> bool {
    (a: Assignment) => a.nodeId == nodeId && a.role == AssignLocal
  }

  function TargetName(): Assignment -> string { (a: Assignment) => a.targetName }

  /** The sorted targets that the request assigns to a node as local. */
  function LocalTargets(le: Order, req: Request, nodeId: string): seq<string> {
    Sort(le, Dedup(Map(TargetName(), Filter(LocalTo(nodeId), req.assignments))))
  }

  function BuildDeviceGroup(le: Order, req: Request, nodeId: string, peerId: string, isPrimary: bool): ConfGroup {
    var localId := if isPrimary then req.localId else req.remoteId;
    var remoteId := if isPrimary then req.remoteId else req.localId;
    ConfGroup(req.deviceGroupName, Sort(le, req.deviceNames),
              [ConfTargetGroup(req.localName, localId, LocalTargets(le, req, nodeId)),
               ConfTargetGroup(req.remoteName, remoteId, LocalTargets(le, req, peerId))])
  }

  function Absent(c: Config): string -> bool {
    (t: string) => !TargetExists(c, t)
  }

  function BuildNodePlan(le: Order, input: NodeInput, req: Request, peerId: string, isPrimary: bool)
    : (r: Result<NodePlan, PlanError>)
    ensures r.Ok? ==> r.value.deviceGroup in r.value.after.deviceGroups
  {
    var dg := BuildDeviceGroup(le, req, input.nodeId, peerId, isPrimary);
    var missing := Find(Absent(input.config), dg.targetGroups[0].targets + dg.targetGroups[1].targets);
    if missing.Some? then Err(MissingTarget(missing.value, input.hostname))
    else
      match Upserted(input.config.deviceGroups, dg, req.mode)
      case Err(e) => Err(e)
      case Ok(groups) => Ok(NodePlan(input.nodeId, input.hostname, dg, input.config.(deviceGroups := groups)))
  }

  method FirstMissing(config: Config, targets: seq<string>) returns (r: Option<string>)
    ensures r == Find(Absent(config), targets)
  {
    for i := 0 to |targets|
      invariant forall j :: 0 <= j < i ==> !Absent(config)(targets[j])
    {
      if !TargetExists(config, targets[i]) {
        FindFirst(Absent(config), targets, i);
        return Some(targets[i]);
      }
    }
    r := None;
  }

  /** The planner works on a clone: the node's own configuration object is not in its frame. */
  method BuildNodePlanFor(le: Order, nodeId: string, hostname: string, config: ScstConfig, req: Request,
                          peerId: string, isPrimary: bool)
    returns (r: Result<NodePlan, PlanError>)
    ensures r == BuildNodePlan(le, NodeInput(nodeId, hostname, config.View()), req, peerId, isPrimary)
  {
    var dg := BuildDeviceGroup(le, req, nodeId, peerId, isPrimary);
    var clone := new ScstConfig.Clone(config.View());
    var missing := FirstMissing(clone.View(), dg.targetGroups[0].targets + dg.targetGroups[1].targets);
    if missing.Some? {
      return Err(MissingTarget(missing.value, hostname));
    }
    var error := clone.UpsertDeviceGroup(dg, req.mode);
    r := match error
         case Some(e) => Err(e)
         case None => Ok(NodePlan(nodeId, hostname, dg, clone.View()));
  }

  function RoleByName(name: string): Role {
    if name == "local" then Local else if name == "remote" then Remote else RoleUnknown
  }

  function TgSnapshot(): ConfTargetGroup -> TargetGroup {
    (tg: ConfTargetGroup) => TargetGroup(tg.name, Some(tg.groupId), StateUnknown, RoleByName(tg.name), tg.targets)
  }

  function GroupSnapshot(dg: ConfGroup): DeviceGroup {
    DeviceGroup(dg.name, dg.devices, Map(TgSnapshot(), dg.targetGroups))
  }

  function PlanSnapshot(p: NodePlan): Node {
    Node(p.nodeId, p.hostname, true, [GroupSnapshot(p.deviceGroup)])
  }

  /** `buildAluaClusterPlan` without the plan token. */
  function BuildClusterPlan(le: Order, req: Request, nodes: seq<NodeInput>): (r: Result<Plan, PlanError>)
    ensures r.Ok? ==>
              var plan := r.value;
              && |plan.nodes| == 2 && plan.primaryNodeId != plan.peerNodeId
              && plan.nodes[0].nodeId == plan.primaryNodeId && plan.nodes[1].nodeId == plan.peerNodeId
              && plan.nodes[0].deviceGroup == BuildDeviceGroup(le, req, plan.primaryNodeId, plan.peerNodeId, true)
              && plan.nodes[1].deviceGroup == BuildDeviceGroup(le, req, plan.peerNodeId, plan.primaryNodeId, false)
              && plan.preview
                 == Compare(le, [PlanSnapshot(plan.nodes[0]), PlanSnapshot(plan.nodes[1])], Options(true, None))
  {
    match ResolvePrimaryAndPeer(nodes, req.primaryNodeId)
    case Err(e) => Err(e)
    case Ok((primary, peer)) =>
      match BuildNodePlan(le, primary, req, peer.nodeId, true)
      case Err(e) => Err(e)
      case Ok(p) =>
        match BuildNodePlan(le, peer, req, primary.nodeId, false)
        case Err(e) => Err(e)
        case Ok(q) =>
          Ok(Plan(req.clusterId, primary.nodeId, peer.nodeId, [p, q],
                  Compare(le, [PlanSnapshot(p), PlanSnapshot(q)], Options(true, None))))
  }

  // --- What a plan is -------------------------------------------------------------------

  /** A primary and a peer are found exactly among two nodes with different ids, one of which is the
      requested primary if any is requested. The primary is that node, else the first one. */
  lemma ResolveExact(nodes: seq<NodeInput>, primaryNodeId: Option<string>)
    ensures var r := ResolvePrimaryAndPeer(nodes, primaryNodeId);
            var requested := primaryNodeId.Some? && primaryNodeId.value != "";
            && (r.Ok? <==> |nodes| == 2 && nodes[0].nodeId != nodes[1].nodeId
                           && (requested ==> primaryNodeId.value in [nodes[0].nodeId, nodes[1].nodeId]))
            && (r.Ok? ==> r.value.0.nodeId == if requested then primaryNodeId.value else nodes[0].nodeId)
  {
    if |nodes| == 2 {
      assert nodes[0] in nodes && nodes[1] in nodes;
      assert forall n :: n in nodes ==> n == nodes[0] || n == nodes[1];
    }
  }

  lemma LocalTargetsMember(le: Order, req: Request, nodeId: string, t: string)
    ensures t in LocalTargets(le, req, nodeId)
       <==> exists a :: a in req.assignments && a.nodeId == nodeId && a.role == AssignLocal && a.targetName == t
  {
    var mine := Filter(LocalTo(nodeId), req.assignments);
    var names := Map(TargetName(), mine);
    SortElements(le, Dedup(names));
    if t in names {
      var i :| 0 <= i < |names| && names[i] == t;
      assert mine[i] in mine;
    }
    if a :| a in req.assignments && a.nodeId == nodeId && a.role == AssignLocal && a.targetName == t {
      assert a in mine;
      var i :| 0 <= i < |mine| && mine[i] == a;
      assert names[i] == t;
    }
  }

  /** The request assigns the target to one of the two nodes as local. */
  ghost predicate Assigned(req: Request, nodeId: string, peerId: string, t: string) {
    exists a :: a in req.assignments && (a.nodeId == nodeId || a.nodeId == peerId)
                && a.role == AssignLocal && a.targetName == t
  }

  lemma AssignedTargets(le: Order, req: Request, nodeId: string, peerId: string, t: string)
    ensures t in LocalTargets(le, req, nodeId) + LocalTargets(le, req, peerId) <==> Assigned(req, nodeId, peerId, t)
  {
    LocalTargetsMember(le, req, nodeId, t);
    LocalTargetsMember(le, req, peerId, t);
  }

  lemma GroupIndexExact(groups: seq<ConfGroup>, name: string)
    ensures GroupIndex(groups, name) == -1 <==> forall g :: g in groups ==> g.name != name
  {
    var i := GroupIndex(groups, name);
    assert i != -1 ==> groups[i] in groups;
  }

  lemma NodePlanParts(le: Order, input: NodeInput, req: Request, peerId: string, isPrimary: bool)
    ensures BuildNodePlan(le, input, req, peerId, isPrimary).Ok?
       <==> Find(Absent(input.config), LocalTargets(le, req, input.nodeId) + LocalTargets(le, req, peerId)).None?
            && (GroupIndex(input.config.deviceGroups, req.deviceGroupName) == -1 || req.mode == Replace)
  {
  }

  lemma NothingAbsent(le: Order, config: Config, req: Request, nodeId: string, peerId: string)
    ensures Find(Absent(config), LocalTargets(le, req, nodeId) + LocalTargets(le, req, peerId)).None?
       <==> forall t :: Assigned(req, nodeId, peerId, t) ==> TargetExists(config, t)
  {
    var targets := LocalTargets(le, req, nodeId) + LocalTargets(le, req, peerId);
    forall t ensures t in targets <==> Assigned(req, nodeId, peerId, t) {
      AssignedTargets(le, req, nodeId, peerId, t);
    }
    assert forall t :: Absent(config)(t) <==> !TargetExists(config, t);
  }

  /** A node can be planned exactly when its configuration has every target assigned to either node as
      local, and has no group of the requested name unless that may be replaced. */
  lemma NodePlanExact(le: Order, input: NodeInput, req: Request, peerId: string, isPrimary: bool)
    ensures BuildNodePlan(le, input, req, peerId, isPrimary).Ok?
       <==> (forall t :: Assigned(req, input.nodeId, peerId, t) ==> TargetExists(input.config, t))
            && (req.mode == Replace || forall g :: g in input.config.deviceGroups ==> g.name != req.deviceGroupName)
  {
    NodePlanParts(le, input, req, peerId, isPrimary);
    NothingAbsent(le, input.config, req, input.nodeId, peerId);
    GroupIndexExact(input.config.deviceGroups, req.deviceGroupName);
  }

  /** The groups planned for primary and peer mirror each other: the same names and devices, each id on
      the opposite side, and what one node serves as local the other lists as remote. On the primary
      the local side carries the requested local id. */
  ghost predicate GroupsMirror(p: ConfGroup, q: ConfGroup, req: Request) {
    && p.name == q.name && p.devices == q.devices && |p.targetGroups| == |q.targetGroups| == 2
    && var (pl, pr, ql, qr) := (p.targetGroups[0], p.targetGroups[1], q.targetGroups[0], q.targetGroups[1]);
       && pl.name == ql.name == req.localName && pr.name == qr.name == req.remoteName
       && pl.groupId == qr.groupId == req.localId && pr.groupId == ql.groupId == req.remoteId
       && pl.targets == qr.targets && pr.targets == ql.targets
  }

  lemma PlansMirror(le: Order, primary: NodeInput, peer: NodeInput, req: Request)
    requires BuildNodePlan(le, primary, req, peer.nodeId, true).Ok?
    requires BuildNodePlan(le, peer, req, primary.nodeId, false).Ok?
    ensures var p := BuildNodePlan(le, primary, req, peer.nodeId, true).value;
            var q := BuildNodePlan(le, peer, req, primary.nodeId, false).value;
            && GroupsMirror(p.deviceGroup, q.deviceGroup, req)
            && (forall t :: t in p.deviceGroup.targetGroups[0].targets
                  <==> exists a :: a in req.assignments && a.nodeId == primary.nodeId && a.role == AssignLocal
                                   && a.targetName == t)
            && (forall t :: t in q.deviceGroup.targetGroups[0].targets
                  <==> exists a :: a in req.assignments && a.nodeId == peer.nodeId && a.role == AssignLocal
                                   && a.targetName == t)
  {
    forall t, id: string
      ensures t in LocalTargets(le, req, id)
         <==> exists a :: a in req.assignments && a.nodeId == id && a.role == AssignLocal && a.targetName == t
    {
      LocalTargetsMember(le, req, id, t);
    }
  }
}
