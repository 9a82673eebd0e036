/** Open gates after which a target is listed twice or a name is not valid: the inputs behind the
    conditions of `AluaExclusive`. */
module AluaGateCases {
  import opened Sequences
  import opened Collation
  import opened Text
  import opened AluaCompare
  import opened AluaPlan
  import opened AluaPreflight
  import opened AluaExclusive

  /** Two healthy nodes without ALUA in sysfs, the first with these groups in its configuration and the
      second with none. Both offer target `t` and device `d`. */
  ghost predicate TwoNodes(x: NodeContext, y: NodeContext, groups: seq<ConfGroup>, t: string, d: string) {
    && x.sshReady && y.sshReady && !x.readOnly && !y.readOnly && x.input.nodeId != y.input.nodeId
    && d in DeviceList(x) && d in DeviceList(y) && t in TargetList(x) && t in TargetList(y)
    && x.input.config.deviceGroups == groups && y.input.config.deviceGroups == []
    && x.sysfsGroups == [] && y.sysfsGroups == []
  }

  /** The group of that name may be made, and the check of `t` on the first node finds no named group. */
  ghost predicate Unopposed(groups: seq<ConfGroup>, name: string, t: string, mode: Mode) {
    && ValidGroupName(Trim(name)) && name != ""
    && (mode == Create ==> forall g :: g in groups ==> g.name != name)
    && var other := GroupOfTarget(groups, t, if mode == Replace then Some(name) else None);
       other.None? || other.value == ""
  }

  /** The request to serve `t` from `x`. */
  function Serve(x: NodeContext, name: string, t: string, d: string, mode: Mode): Draft {
    Draft(Some("c"), None, Some(name), [d], Some(GroupNames("local", "remote")), Some(GroupIds(1, 2)),
          [Assignment(x.input.nodeId, t, AssignLocal)], Some(mode))
  }

  lemma TargetListed(n: NodeContext, t: string)
    requires t in TargetList(n)
    ensures TargetExists(n.input.config, t)
  {
    FlatMapMember(DriverTargets(), n.input.config.drivers, t);
  }

  lemma NodesClear(x: NodeContext, y: NodeContext, groups: seq<ConfGroup>, t: string, d: string)
    requires TwoNodes(x, y, groups, t, d)
    ensures FlatMap(NodeBlockers(), [x, y]) == [] && FlatMap(DeviceBlockers([d]), [x, y]) == []
  {
    FlatMapEmpty(NodeBlockers(), [x, y]);
    FlatMapEmpty(DeviceBlockers([d]), [x, y]);
    forall n | n in [x, y] ensures NodeBlockers()(n) == [] && DeviceBlockers([d])(n) == [] {
      FlatMapEmpty(DeviceMissing(n), [d]);
    }
  }

  lemma AssignmentClears(nodes: seq<NodeContext>, draft: Draft, x: NodeContext, a: Assignment)
    requires Find(ContextNamed(a.nodeId), nodes) == Some(x) && a.targetName in TargetList(x)
    requires var other := GroupOfTarget(x.input.config.deviceGroups, a.targetName,
                                        if draft.Replaces() then draft.deviceGroupName else None);
             other.None? || other.value == ""
    ensures AssignmentBlockers(nodes, draft)(a) == []
  {
  }

  lemma AssignmentsClear(x: NodeContext, y: NodeContext, groups: seq<ConfGroup>, name: string, t: string, d: string,
                         mode: Mode, nodes: seq<NodeContext>, draft: Draft)
    requires TwoNodes(x, y, groups, t, d) && Unopposed(groups, name, t, mode)
    requires nodes == [x, y] && draft == Serve(x, name, t, d, mode)
    ensures FlatMap(AssignmentBlockers(nodes, draft), draft.assignments) == []
  {
    FindFirst(ContextNamed(x.input.nodeId), nodes, 0);
    AssignmentClears(nodes, draft, x, draft.assignments[0]);
    FlatMapEmpty(AssignmentBlockers(nodes, draft), draft.assignments);
  }

  lemma ConflictsClear(x: NodeContext, y: NodeContext, groups: seq<ConfGroup>, name: string, t: string, d: string,
                       nodes: seq<NodeContext>)
    requires TwoNodes(x, y, groups, t, d) && Unopposed(groups, name, t, Create) && nodes == [x, y]
    ensures FlatMap(ConflictBlockers(name), nodes) == []
  {
    FlatMapEmpty(ConflictBlockers(name), nodes);
    forall n | n in nodes ensures ConflictBlockers(name)(n) == [] {
      assert n == x || n == y;
    }
  }

  /** The planner succeeds with `x` as the primary. */
  ghost predicate Planned(le: Order, x: NodeContext, nodes: seq<NodeContext>, req: Request) {
    var r := BuildClusterPlan(le, req, Map(Inputs(), nodes));
    r.Ok? && r.value.nodes[0].nodeId == x.input.nodeId
  }

  lemma BothPlanned(le: Order, x: NodeContext, y: NodeContext, groups: seq<ConfGroup>, name: string, t: string,
                    d: string, mode: Mode, req: Request)
    requires TwoNodes(x, y, groups, t, d) && Unopposed(groups, name, t, mode)
    requires Some(req) == Serve(x, name, t, d, mode).Complete()
    ensures BuildNodePlan(le, x.input, req, y.input.nodeId, true).Ok?
    ensures BuildNodePlan(le, y.input, req, x.input.nodeId, false).Ok?
  {
    TargetListed(x, t);
    TargetListed(y, t);
    assert forall a :: a in req.assignments ==> a.targetName == t;
    NodePlanExact(le, x.input, req, y.input.nodeId, true);
    NodePlanExact(le, y.input, req, x.input.nodeId, false);
  }

  lemma PlanMade(le: Order, x: NodeContext, y: NodeContext, groups: seq<ConfGroup>, name: string, t: string,
                 d: string, mode: Mode, nodes: seq<NodeContext>, req: Request)
    requires TwoNodes(x, y, groups, t, d) && Unopposed(groups, name, t, mode)
    requires nodes == [x, y] && Some(req) == Serve(x, name, t, d, mode).Complete()
    ensures Planned(le, x, nodes, req)
  {
    var inputs := Map(Inputs(), nodes);
    assert inputs[0] == x.input && inputs[1] == y.input;
    ResolveExact(inputs, None);
    BothPlanned(le, x, y, groups, name, t, d, mode, req);
  }

  lemma PlanClear(le: Order, x: NodeContext, nodes: seq<NodeContext>, draft: Draft, req: Request)
    requires draft.Complete() == Some(req) && Planned(le, x, nodes, req)
    ensures !PlanFails(le, nodes, draft)
  {
  }

  lemma GateOpens(le: Order, nodes: seq<NodeContext>, draft: Draft)
    requires FlatMap(NodeBlockers(), nodes) == [] && RequestBlockers(draft) == [] && Devices(nodes, draft) == []
    requires FlatMap(AssignmentBlockers(nodes, draft), draft.assignments) == [] && Conflicts(nodes, draft) == []
    requires !PlanFails(le, nodes, draft)
    ensures Gate(le, 2, nodes, draft).ok
  {
  }

  lemma RequestClear(x: NodeContext, name: string, t: string, d: string, mode: Mode, draft: Draft)
    requires ValidGroupName(Trim(name)) && draft == Serve(x, name, t, d, mode)
    ensures RequestBlockers(draft) == []
  {
  }

  lemma RestClear(x: NodeContext, y: NodeContext, groups: seq<ConfGroup>, name: string, t: string, d: string,
                  mode: Mode, nodes: seq<NodeContext>, draft: Draft)
    requires TwoNodes(x, y, groups, t, d) && Unopposed(groups, name, t, mode)
    requires nodes == [x, y] && draft == Serve(x, name, t, d, mode)
    ensures FlatMap(NodeBlockers(), nodes) == [] && Devices(nodes, draft) == [] && Conflicts(nodes, draft) == []
  {
    NodesClear(x, y, groups, t, d);
    if mode == Create {
      ConflictsClear(x, y, groups, name, t, d, nodes);
    }
  }

  /** On two such nodes the gate opens for an unopposed request. */
  lemma OpensFor(le: Order, x: NodeContext, y: NodeContext, groups: seq<ConfGroup>, name: string, t: string, d: string,
                 mode: Mode, nodes: seq<NodeContext>, draft: Draft, req: Request)
    requires TwoNodes(x, y, groups, t, d) && Unopposed(groups, name, t, mode)
    requires nodes == [x, y] && draft == Serve(x, name, t, d, mode) && draft.Complete() == Some(req)
    ensures Gate(le, 2, nodes, draft).ok && Planned(le, x, nodes, req)
  {
    RequestClear(x, name, t, d, mode, draft);
    RestClear(x, y, groups, name, t, d, mode, nodes, draft);
    AssignmentsClear(x, y, groups, name, t, d, mode, nodes, draft);
    PlanMade(le, x, y, groups, name, t, d, mode, nodes, req);
    PlanClear(le, x, nodes, draft, req);
    GateOpens(le, nodes, draft);
  }

  /** The first node's planned configuration does not list the target just once. */
  ghost predicate Doubled(le: Order, nodes: seq<NodeContext>, req: Request, t: string) {
    var r := BuildClusterPlan(le, req, Map(Inputs(), nodes));
    r.Ok? && !ListedOnce(r.value.nodes[0].after.deviceGroups, t)
  }

  lemma ServedLocally(le: Order, x: NodeContext, t: string, req: Request)
    requires req.assignments == [Assignment(x.input.nodeId, t, AssignLocal)]
    ensures t in LocalTargets(le, req, x.input.nodeId)
  {
    LocalTargetsMember(le, req, x.input.nodeId, t);
    assert req.assignments[0] in req.assignments;
  }

  lemma FirstDoubles(le: Order, req: Request, n: NodeContext, np: NodePlan, t: string)
    requires Exclusive(le, req, n, np) && t in LocalTargets(le, req, np.nodeId)
    requires var groups := n.input.config.deviceGroups;
             ListedUnnamed(groups, t) || ListedByRepeat(groups, req.deviceGroupName, t)
    ensures !ListedOnce(np.after.deviceGroups, t)
  {
    assert OnceUnless(n.input.config.deviceGroups, np.after.deviceGroups, req.deviceGroupName, t);
  }

  lemma FirstContext(x: NodeContext, y: NodeContext, nodes: seq<NodeContext>, n: NodeContext)
    requires nodes == [x, y] && n in nodes && n.input.nodeId == x.input.nodeId && x.input.nodeId != y.input.nodeId
    ensures n == x
  {
  }

  /** If the gate opens and a group that it does not see lists the target, it is listed twice. */
  lemma DoublesFor(le: Order, x: NodeContext, y: NodeContext, groups: seq<ConfGroup>, t: string, d: string,
                   nodes: seq<NodeContext>, draft: Draft, req: Request)
    requires TwoNodes(x, y, groups, t, d) && nodes == [x, y] && draft.Complete() == Some(req)
    requires Gate(le, 2, nodes, draft).ok && PlanTried(2, draft) && Planned(le, x, nodes, req)
    requires req.assignments == [Assignment(x.input.nodeId, t, AssignLocal)]
    requires ListedUnnamed(groups, t) || ListedByRepeat(groups, req.deviceGroupName, t)
    ensures Doubled(le, nodes, req, t)
  {
    var n := LocalTargetsExclusive(le, 2, nodes, draft, 0);
    FirstContext(x, y, nodes, n);
    ServedLocally(le, x, t, req);
    FirstDoubles(le, req, n, BuildClusterPlan(le, req, Map(Inputs(), nodes)).value.nodes[0], t);
  }

  lemma GName()
    ensures Trim("g") == "g" && ValidGroupName("g") && Trim(" g") == "g"
  {
    assert TrimStart("g") == "g" && TrimEnd("g") == "g";
    assert " g"[1..] == "g" && TrimStart(" g") == TrimStart("g");
  }

  lemma SeenUnnamed(g: ConfGroup, t: string)
    requires g.name == "" && Lists(g, t)
    ensures Unopposed([g], "g", t, Create) && ListedUnnamed([g], t)
  {
    GName();
    assert g in [g];
  }

  /** With an unnamed group that lists the target the gate opens, and the target is listed twice. The
      parser of `scst.conf` never yields such a group. */
  lemma UnnamedGroupDoubles(le: Order, x: NodeContext, y: NodeContext, g: ConfGroup, t: string, d: string,
                            nodes: seq<NodeContext>, draft: Draft, req: Request)
    requires TwoNodes(x, y, [g], t, d) && g.name == "" && Lists(g, t)
    requires nodes == [x, y] && draft == Serve(x, "g", t, d, Create) && draft.Complete() == Some(req)
    ensures Gate(le, 2, nodes, draft).ok && Doubled(le, nodes, req, t)
  {
    SeenUnnamed(g, t);
    OpensFor(le, x, y, [g], "g", t, d, Create, nodes, draft, req);
    DoublesFor(le, x, y, [g], t, d, nodes, draft, req);
  }

  lemma SeenRepeated(g: ConfGroup, h: ConfGroup, t: string)
    requires g.name == h.name == "g" && Lists(h, t)
    ensures Unopposed([g, h], "g", t, Replace) && ListedByRepeat([g, h], "g", t)
  {
    GName();
    GroupOfTargetExact([g, h], t, Some("g"));
    assert GroupIndex([g, h], "g") == 0 && [g, h][1] == h;
  }

  /** With two groups of the same name, the second of which lists the target, the gate opens for a
      replacement, and the target is listed twice. */
  lemma RepeatedNameDoubles(le: Order, x: NodeContext, y: NodeContext, g: ConfGroup, h: ConfGroup, t: string, d: string,
                            nodes: seq<NodeContext>, draft: Draft, req: Request)
    requires TwoNodes(x, y, [g, h], t, d) && g.name == h.name == "g" && Lists(h, t)
    requires nodes == [x, y] && draft == Serve(x, "g", t, d, Replace) && draft.Complete() == Some(req)
    ensures Gate(le, 2, nodes, draft).ok && Doubled(le, nodes, req, t)
  {
    SeenRepeated(g, h, t);
    OpensFor(le, x, y, [g, h], "g", t, d, Replace, nodes, draft, req);
    DoublesFor(le, x, y, [g, h], t, d, nodes, draft, req);
  }

  /** The group is planned under a name that is not valid. */
  ghost predicate PlannedInvalid(le: Order, nodes: seq<NodeContext>, req: Request) {
    var r := BuildClusterPlan(le, req, Map(Inputs(), nodes));
    r.Ok? && !ValidGroupName(r.value.nodes[0].deviceGroup.name)
  }

  lemma SeenPadded(g: ConfGroup, t: string)
    requires g.name == "g" && !Lists(g, t)
    ensures Unopposed([g], " g", t, Create) && !ValidGroupName(" g")
  {
    GName();
    assert " g"[0] == ' ' && g.name != " g";
  }

  lemma InvalidPlanned(le: Order, x: NodeContext, nodes: seq<NodeContext>, req: Request)
    requires Planned(le, x, nodes, req) && !ValidGroupName(req.deviceGroupName)
    ensures PlannedInvalid(le, nodes, req)
  {
    PlannedNames(le, req, Map(Inputs(), nodes));
  }

  /** With a blank in front of the name the gate opens, also beside an existing group of the trimmed
      name, and the planned group keeps the blank. Read again from `scst.conf`, it is a second "g". */
  lemma PaddedNameExample(le: Order, x: NodeContext, y: NodeContext, g: ConfGroup, t: string, d: string,
                          nodes: seq<NodeContext>, draft: Draft, req: Request)
    requires TwoNodes(x, y, [g], t, d) && g.name == "g" && !Lists(g, t)
    requires nodes == [x, y] && draft == Serve(x, " g", t, d, Create) && draft.Complete() == Some(req)
    ensures Gate(le, 2, nodes, draft).ok && PlannedInvalid(le, nodes, req)
  {
    SeenPadded(g, t);
    OpensFor(le, x, y, [g], " g", t, d, Create, nodes, draft, req);
    InvalidPlanned(le, x, nodes, req);
  }
}
