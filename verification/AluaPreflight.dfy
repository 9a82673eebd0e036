/** The gate in front of the ALUA wizard, `server/utils/alua-wizard-preflight.ts`. */
module AluaPreflight {
  import opened Sequences
  import opened Collation
  import opened Text
  import opened AluaModel
  import opened AluaCompare
  import opened AluaPlan

  datatype BlockerCode =
    | MinNodes | SshDown | ReadOnly | MissingDevices | MissingTargets | InvalidDeviceGroup | DuplicateGroupId
    | DeviceNotOnAllNodes | InvalidReference | TargetAlreadyInAlua | ConflictingAlua | PlanInvalid | TwoNodeOnly
    | ExistingAsymmetric

  /** A blocker or warning and the names it is about. */
  datatype Blocker = Blocker(code: BlockerCode, names: seq<string>)

  datatype NodeContext = NodeContext(input: NodeInput, readOnly: bool, sshReady: bool, sysfsGroups: seq<DeviceGroup>)

  datatype GroupIds = GroupIds(local: int, remote: int)
  datatype GroupNames = GroupNames(local: string, remote: string)

  /** `Partial<AluaWizardRequest>`. */
  datatype Draft = Draft(
    clusterId: Option<string>, primaryNodeId: Option<string>, deviceGroupName: Option<string>,
    deviceNames: seq<string>, names: Option<GroupNames>, ids: Option<GroupIds>,
    assignments: seq<Assignment>, mode: Option<Mode>)
  {
    predicate Replaces() { mode == Some(Replace) }

    /** The request that the planner reads; without names or ids it throws. */
    function Complete(): Option<Request> {
      if clusterId.Some? && deviceGroupName.Some? && names.Some? && ids.Some? then
        Some(Request(clusterId.value, primaryNodeId, deviceGroupName.value, deviceNames,
                     names.value.local, names.value.remote, ids.value.local, ids.value.remote,
                     assignments, if Replaces() then Replace else Create))
      else None
    }
  }

  datatype Preflight = Preflight(
    ok: bool, blockers: seq<Blocker>, warnings: seq<Blocker>, nodeCount: nat, canExecute: bool)

  // --- Names ----------------------------------------------------------------------------

  predicate Letter(c: char) { 'a' <= c <= 'z' || 'A' <= c <= 'Z' }

  predicate NameChar(c: char) { Letter(c) || '0' <= c <= '9' || c == '_' || c == '-' }

  /** `/^[a-zA-Z][a-zA-Z0-9_-]{0,31}$/`. */
  predicate ValidGroupName(name: string) {
    1 <= |name| <= 32 && Letter(name[0]) && forall i :: 1 <= i < |name| ==> NameChar(name[i])
  }

  function HandlerDevices(): Handler -> seq<string> { (h: Handler) => h.devices }

  function DriverTargets(): Driver -> seq<string> {
    (d: Driver) => if d.name == SYSTEM_DRIVER then [] else d.targets
  }

  function DeviceList(n: NodeContext): seq<string> { FlatMap(HandlerDevices(), n.input.config.handlers) }

  function TargetList(n: NodeContext): seq<string> { FlatMap(DriverTargets(), n.input.config.drivers) }

  // --- Passes ---------------------------------------------------------------------------

  function NodeBlockers(): NodeContext -> seq<Blocker> {
    (n: NodeContext) =>
      (if n.sshReady then [] else [Blocker(SshDown, [n.input.hostname])])
      + (if n.readOnly then [Blocker(ReadOnly, [n.input.hostname])] else [])
      + (if n.sshReady && DeviceList(n) == [] then [Blocker(MissingDevices, [n.input.hostname])] else [])
      + (if n.sshReady && TargetList(n) == [] then [Blocker(MissingTargets, [n.input.hostname])] else [])
  }

  function RequestBlockers(req: Draft): seq<Blocker> {
    (if req.deviceGroupName.Some? && !ValidGroupName(Trim(req.deviceGroupName.value))
     then [Blocker(InvalidDeviceGroup, [])] else [])
    + (if req.ids.Some? && req.ids.value.local == req.ids.value.remote then [Blocker(DuplicateGroupId, [])] else [])
  }

  function DeviceMissing(n: NodeContext): string -> seq<Blocker> {
    (d: string) => if d in DeviceList(n) then [] else [Blocker(DeviceNotOnAllNodes, [d, n.input.hostname])]
  }

  function DeviceBlockers(devices: seq<string>): NodeContext -> seq<Blocker> {
    (n: NodeContext) => if n.sshReady then FlatMap(DeviceMissing(n), devices) else []
  }

  function ContextNamed(id: string): NodeContext -> bool { (n: NodeContext) => n.input.nodeId == id }

  function AssignmentBlockers(nodes: seq<NodeContext>, req: Draft): Assignment -> seq<Blocker> {
    (a: Assignment) =>
      var node := Find(ContextNamed(a.nodeId), nodes);
      if node.None? || !node.value.sshReady then []
      else
        var other := GroupOfTarget(node.value.input.config.deviceGroups, a.targetName,
                                   if req.Replaces() then req.deviceGroupName else None);
        (if a.targetName in TargetList(node.value) then []
         else [Blocker(InvalidReference, [a.targetName, node.value.input.hostname])])
        + (if other.Some? && other.value != "" then [Blocker(TargetAlreadyInAlua, [a.targetName, other.value])] else [])
  }

  predicate GroupKnown(n: NodeContext, name: string) {
    || (exists g :: g in n.input.config.deviceGroups && g.name == name)
    || (exists g :: g in n.sysfsGroups && g.name == name)
  }

  function ConflictBlockers(name: string): NodeContext -> seq<Blocker> {
    (n: NodeContext) => if GroupKnown(n, name) then [Blocker(ConflictingAlua, [name, n.input.hostname])] else []
  }

  function Inputs(): NodeContext -> NodeInput { (n: NodeContext) => n.input }

  /** The planner is tried only on a request that names everything it needs. */
  predicate PlanTried(nodeCount: nat, req: Draft) {
    && req.clusterId.Some? && req.clusterId.value != ""
    && req.deviceGroupName.Some? && req.deviceGroupName.value != ""
    && req.deviceNames != [] && req.assignments != [] && nodeCount == 2
  }

  predicate PlanFails(le: Order, nodes: seq<NodeContext>, req: Draft) {
    req.Complete().None? || BuildClusterPlan(le, req.Complete().value, Map(Inputs(), nodes)).Err?
  }

  function PlanBlockers(le: Order, nodeCount: nat, nodes: seq<NodeContext>, req: Draft): seq<Blocker> {
    if PlanTried(nodeCount, req) && PlanFails(le, nodes, req) then [Blocker(PlanInvalid, [])] else []
  }

  function Conflicts(nodes: seq<NodeContext>, req: Draft): seq<Blocker> {
    if req.deviceGroupName.Some? && req.deviceGroupName.value != "" && !req.Replaces()
    then FlatMap(ConflictBlockers(req.deviceGroupName.value), nodes) else []
  }

  function Devices(nodes: seq<NodeContext>, req: Draft): seq<Blocker> {
    if req.deviceNames != [] && |nodes| >= 2 then FlatMap(DeviceBlockers(req.deviceNames), nodes) else []
  }

  function Blockers(le: Order, nodeCount: nat, nodes: seq<NodeContext>, req: Draft): seq<Blocker> {
    (if nodeCount < 2 then [Blocker(MinNodes, [])] else [])
    + FlatMap(NodeBlockers(), nodes)
    + RequestBlockers(req)
    + Devices(nodes, req)
    + FlatMap(AssignmentBlockers(nodes, req), req.assignments)
    + Conflicts(nodes, req)
    + PlanBlockers(le, nodeCount, nodes, req)
  }

  function ReadyContext(): NodeContext -> bool { (n: NodeContext) => n.sshReady }

  function SysfsNode(): NodeContext -> Node {
    (n: NodeContext) => Node(n.input.nodeId, n.input.hostname, true, n.sysfsGroups)
  }

  function Warnings(le: Order, nodeCount: nat, nodes: seq<NodeContext>, req: Draft): seq<Blocker> {
    var ready := Filter(ReadyContext(), nodes);
    var health := Compare(le, Map(SysfsNode(), ready), Options(nodeCount == 2, None)).health;
    (if nodeCount > 2 then [Blocker(TwoNodeOnly, [])] else [])
    + (if |ready| >= 2 && health != HealthOk && health != HealthMissing && !req.Replaces()
       then [Blocker(ExistingAsymmetric, [])] else [])
  }

  /** The result, for `nodeCount` cluster members. */
  function Gate(le: Order, nodeCount: nat, nodes: seq<NodeContext>, req: Draft): Preflight {
    var blockers := Blockers(le, nodeCount, nodes, req);
    Preflight(blockers == [], blockers, Warnings(le, nodeCount, nodes, req), nodeCount,
              blockers == [] && nodeCount == 2)
  }

  // --- The loops ------------------------------------------------------------------------

  method ReportNodes(blockers: seq<Blocker>, nodes: seq<NodeContext>) returns (out: seq<Blocker>)
    ensures out == blockers + FlatMap(NodeBlockers(), nodes)
  {
    out := blockers;
    for i := 0 to |nodes|
      invariant out == blockers + FlatMap(NodeBlockers(), nodes[..i])
    {
      FlatMapStep(NodeBlockers(), nodes, i);
      AppendAssociative(blockers, FlatMap(NodeBlockers(), nodes[..i]), NodeBlockers()(nodes[i]));
      out := ReportNode(out, nodes[i]);
    }
    assert nodes[..|nodes|] == nodes;
  }

  method ReportNode(blockers: seq<Blocker>, n: NodeContext) returns (out: seq<Blocker>)
    ensures out == blockers + NodeBlockers()(n)
  {
    var found: seq<Blocker> := [];
    if !n.sshReady {
      found := found + [Blocker(SshDown, [n.input.hostname])];
    }
    if n.readOnly {
      found := found + [Blocker(ReadOnly, [n.input.hostname])];
    }
    if n.sshReady && DeviceList(n) == [] {
      found := found + [Blocker(MissingDevices, [n.input.hostname])];
    }
    if n.sshReady && TargetList(n) == [] {
      found := found + [Blocker(MissingTargets, [n.input.hostname])];
    }
    out := blockers + found;
  }

  method ReportDevices(blockers: seq<Blocker>, nodes: seq<NodeContext>, req: Draft) returns (out: seq<Blocker>)
    ensures out == blockers + Devices(nodes, req)
  {
    out := blockers;
    if req.deviceNames == [] || |nodes| < 2 {
      return;
    }
    for i := 0 to |nodes|
      invariant out == blockers + FlatMap(DeviceBlockers(req.deviceNames), nodes[..i])
    {
      FlatMapStep(DeviceBlockers(req.deviceNames), nodes, i);
      AppendAssociative(blockers, FlatMap(DeviceBlockers(req.deviceNames), nodes[..i]),
                        DeviceBlockers(req.deviceNames)(nodes[i]));
      if !nodes[i].sshReady {
        continue;
      }
      out := ReportMissingDevices(out, nodes[i], req.deviceNames);
    }
    assert nodes[..|nodes|] == nodes;
  }

  method ReportMissingDevices(blockers: seq<Blocker>, n: NodeContext, devices: seq<string>)
    returns (out: seq<Blocker>)
    ensures out == blockers + FlatMap(DeviceMissing(n), devices)
  {
    out := blockers;
    var known := DeviceList(n);
    for i := 0 to |devices|
      invariant out == blockers + FlatMap(DeviceMissing(n), devices[..i])
    {
      FlatMapStep(DeviceMissing(n), devices, i);
      if devices[i] !in known {
        out := out + [Blocker(DeviceNotOnAllNodes, [devices[i], n.input.hostname])];
      }
    }
    assert devices[..|devices|] == devices;
  }

  method ReportAssignments(blockers: seq<Blocker>, nodes: seq<NodeContext>, req: Draft) returns (out: seq<Blocker>)
    ensures out == blockers + FlatMap(AssignmentBlockers(nodes, req), req.assignments)
  {
    out := blockers;
    for i := 0 to |req.assignments|
      invariant out == blockers + FlatMap(AssignmentBlockers(nodes, req), req.assignments[..i])
    {
      FlatMapStep(AssignmentBlockers(nodes, req), req.assignments, i);
      AppendAssociative(blockers, FlatMap(AssignmentBlockers(nodes, req), req.assignments[..i]),
                        AssignmentBlockers(nodes, req)(req.assignments[i]));
      out := ReportAssignment(out, nodes, req, req.assignments[i]);
    }
    assert req.assignments[..|req.assignments|] == req.assignments;
  }

  method ReportAssignment(blockers: seq<Blocker>, nodes: seq<NodeContext>, req: Draft, a: Assignment)
    returns (out: seq<Blocker>)
    ensures out == blockers + AssignmentBlockers(nodes, req)(a)
  {
    var node := Find(ContextNamed(a.nodeId), nodes);
    if node.None? || !node.value.sshReady {
      return blockers;
    }
    var found: seq<Blocker> := [];
    if a.targetName !in TargetList(node.value) {
      found := found + [Blocker(InvalidReference, [a.targetName, node.value.input.hostname])];
    }
    var other := FindTargetInOtherDeviceGroups(node.value.input.config, a.targetName,
                                               if req.Replaces() then req.deviceGroupName else None);
    if other.Some? && other.value != "" {
      found := found + [Blocker(TargetAlreadyInAlua, [a.targetName, other.value])];
    }
    out := blockers + found;
  }

  method ReportConflicts(blockers: seq<Blocker>, nodes: seq<NodeContext>, req: Draft) returns (out: seq<Blocker>)
    ensures out == blockers + Conflicts(nodes, req)
  {
    out := blockers;
    if req.deviceGroupName.None? || req.deviceGroupName.value == "" || req.Replaces() {
      return;
    }
    var name := req.deviceGroupName.value;
    for i := 0 to |nodes|
      invariant out == blockers + FlatMap(ConflictBlockers(name), nodes[..i])
    {
      FlatMapStep(ConflictBlockers(name), nodes, i);
      if GroupKnown(nodes[i], name) {
        out := out + [Blocker(ConflictingAlua, [name, nodes[i].input.hostname])];
      }
    }
    assert nodes[..|nodes|] == nodes;
  }

  method ReportPlan(le: Order, blockers: seq<Blocker>, nodeCount: nat, nodes: seq<NodeContext>, req: Draft)
    returns (out: seq<Blocker>)
    ensures out == blockers + PlanBlockers(le, nodeCount, nodes, req)
  {
    out := blockers;
    if PlanTried(nodeCount, req) && PlanFails(le, nodes, req) {
      out := out + [Blocker(PlanInvalid, [])];
    }
  }

  method RunAluaWizardPreflight(le: Order, nodeCount: nat, nodes: seq<NodeContext>, req: Draft)
    returns (r: Preflight)
    ensures r == Gate(le, nodeCount, nodes, req)
  {
    var blockers: seq<Blocker> := [];
    if nodeCount < 2 {
      blockers := [Blocker(MinNodes, [])];
    }
    blockers := ReportNodes(blockers, nodes);
    blockers := blockers + RequestBlockers(req);
    blockers := ReportDevices(blockers, nodes, req);
    blockers := ReportAssignments(blockers, nodes, req);
    blockers := ReportConflicts(blockers, nodes, req);
    blockers := ReportPlan(le, blockers, nodeCount, nodes, req);
    var warnings := Warnings(le, nodeCount, nodes, req);
    assert blockers == Blockers(le, nodeCount, nodes, req);
    r := Preflight(|blockers| == 0, blockers, warnings, nodeCount, |blockers| == 0 && nodeCount == 2);
  }
}
