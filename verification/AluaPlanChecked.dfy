/** The planner meets the checker: what the checker says of a plan depends on the two
    target-group names alone. */
module AluaPlanChecked {
  import opened Sequences
  import opened Collation
  import opened AluaModel
  import opened AluaCompare
  import opened AluaVerdict
  import opened AluaExact
  import opened AluaPlan

  predicate Standard(name: string) {
    name == "local" || name == "remote"
  }

  /** The names are distinct and are either both of the standard ones, or neither. */
  predicate GoodNames(localName: string, remoteName: string) {
    localName != remoteName && (Standard(localName) <==> Standard(remoteName))
  }

  /** A target group as the planner shows it to the checker. */
  function Shown(name: string, id: int, targets: seq<string>): TargetGroup {
    TargetGroup(name, Some(id), StateUnknown, RoleByName(name), targets)
  }

  /** Nodes `a` and `b` show one group with two target groups; what `a` has under one name,
      `b` has under the other. */
  ghost predicate Mirrored(a: Node, b: Node, dg: string, l: string, r: string,
                           idL: int, idR: int, tL: seq<string>, tR: seq<string>) {
    && a.sshReady && b.sshReady
    && |a.deviceGroups| == 1 && a.deviceGroups[0].name == dg
    && |b.deviceGroups| == 1 && b.deviceGroups[0].name == dg
    && a.deviceGroups[0].targetGroups == [Shown(l, idL, tL), Shown(r, idR, tR)]
    && b.deviceGroups[0].targetGroups == [Shown(l, idR, tR), Shown(r, idL, tL)]
  }

  lemma SingleGroupLookup(n: Node, dg: string)
    requires |n.deviceGroups| == 1
    ensures FindGroup(n, dg) == if dg == n.deviceGroups[0].name then Some(n.deviceGroups[0]) else None
    ensures GroupNames(n) == [n.deviceGroups[0].name]
  {
    assert n.deviceGroups[0] in n.deviceGroups;
    assert forall g :: g in n.deviceGroups ==> g == n.deviceGroups[0];
    assert GroupNames(n)[0] == n.deviceGroups[0].name;
  }

  /** Lookups in a list of two target groups. */
  lemma PairLookup(n: Node, dg: string, x: TargetGroup, y: TargetGroup, tg: string)
    requires TargetGroupsOf(n, dg) == [x, y] && (x.name == y.name ==> x.state == y.state)
    ensures TgNames(n, dg) == [x.name, y.name]
    ensures tg == x.name ==> FindTg(n, dg, tg) == Some(x)
    ensures tg == y.name && x.name != y.name ==> FindTg(n, dg, tg) == Some(y)
    ensures FindTg(n, dg, tg).Some? ==> FindTg(n, dg, tg).value in [x, y]
  {
    var tgs := TargetGroupsOf(n, dg);
    assert TgNames(n, dg)[0] == x.name && TgNames(n, dg)[1] == y.name;
    if tg == x.name {
      FindFirst(TargetGroupNamed(tg), tgs, 0);
    } else if tg == y.name {
      assert !TargetGroupNamed(tg)(tgs[0]);
      FindFirst(TargetGroupNamed(tg), tgs, 1);
    }
  }

  lemma MirroredLookup(a: Node, b: Node, dg: string, l: string, r: string,
                       idL: int, idR: int, tL: seq<string>, tR: seq<string>, tg: string)
    requires Mirrored(a, b, dg, l, r, idL, idR, tL, tR)
    ensures GroupNames(a) == [dg] == GroupNames(b)
    ensures TgNames(a, dg) == [l, r] == TgNames(b, dg)
    ensures FindGroup(a, dg) == Some(a.deviceGroups[0]) && FindGroup(b, dg) == Some(b.deviceGroups[0])
    ensures tg == l ==> FindTg(a, dg, tg) == Some(Shown(l, idL, tL)) && FindTg(b, dg, tg) == Some(Shown(l, idR, tR))
    ensures tg == r && l != r ==>
              FindTg(a, dg, tg) == Some(Shown(r, idR, tR)) && FindTg(b, dg, tg) == Some(Shown(r, idL, tL))
  {
    SingleGroupLookup(a, dg);
    SingleGroupLookup(b, dg);
    PairLookup(a, dg, Shown(l, idL, tL), Shown(r, idR, tR), tg);
    PairLookup(b, dg, Shown(l, idR, tR), Shown(r, idL, tL), tg);
  }

  lemma SharedGroupName(le: Order, nodes: seq<Node>, dg: string)
    requires nodes != [] && forall n :: n in nodes ==> GroupNames(n) == [dg]
    ensures UnionGroupNames(le, nodes) == [dg]
  {
    var all := FlatMap(NodeGroupNames(), nodes);
    assert nodes[0] in nodes;
    forall y ensures y in all <==> y == dg {
      FlatMapMember(NodeGroupNames(), nodes, y);
      assert forall n :: n in nodes ==> NodeGroupNames()(n) == [dg];
    }
    OnlyName(le, all, dg);
  }

  lemma SharedTgNames(le: Order, nodes: seq<Node>, dg: string, l: string, r: string)
    requires nodes != [] && forall n :: n in nodes ==> TgNames(n, dg) == [l, r]
    ensures forall y :: y in FlatMap(NodeTgNames(dg), nodes) <==> y == l || y == r
  {
    var all := FlatMap(NodeTgNames(dg), nodes);
    assert nodes[0] in nodes;
    forall y ensures y in all <==> y == l || y == r {
      FlatMapMember(NodeTgNames(dg), nodes, y);
      assert forall n :: n in nodes ==> NodeTgNames(dg)(n) == [l, r];
    }
  }

  lemma RepeatedNameIsLonger(le: Order, l: string)
    ensures Join(Sort(le, [l, l])) != Join([l])
  {
    WeightSort(le, [l, l]);
    JoinLength(Sort(le, [l, l]));
    JoinLength([l]);
    assert [l, l][1..] == [l];
  }

  lemma SharedTgUnion(le: Order, nodes: seq<Node>, dg: string, l: string, r: string)
    requires TotalOrder(le)
    requires nodes != [] && forall n :: n in nodes ==> TgNames(n, dg) == [l, r]
    ensures UnionTgNames(le, nodes, dg) == if l == r then [l] else Sort(le, [l, r])
  {
    var all := FlatMap(NodeTgNames(dg), nodes);
    SharedTgNames(le, nodes, dg, l, r);
    if l == r {
      OnlyName(le, all, l);
    } else {
      var pair := [l, r];
      assert forall y :: y in pair <==> y == l || y == r;
      SortedSetCanonical(le, Dedup(all), pair);
    }
  }

  lemma SharedTgSets(le: Order, nodes: seq<Node>, dg: string, l: string, r: string)
    requires TotalOrder(le)
    requires nodes != [] && forall n :: n in nodes ==> TgNames(n, dg) == [l, r]
    ensures TgSetsMatch(le, nodes, dg, UnionTgNames(le, nodes, dg)) <==> l != r
  {
    SharedTgUnion(le, nodes, dg, l, r);
    RepeatedNameIsLonger(le, l);
    var expected := UnionTgNames(le, nodes, dg);
    assert nodes[0] in nodes;
    forall n | n in nodes ensures TgNamesAre(le, n, dg, expected) <==> l != r {
    }
  }

  lemma MirroredRoles(g: DeviceGroup, l: string, r: string, x: TargetGroup, y: TargetGroup)
    requires g.targetGroups == [x, y] && x.role == RoleByName(l) && y.role == RoleByName(r)
    ensures RolesPaired(g) <==> Standard(l) && Standard(r) && l != r
    ensures RolesAllUnknown(g) <==> !Standard(l) && !Standard(r)
  {
    assert g.targetGroups[0] == x && g.targetGroups[1] == y;
    assert x in g.targetGroups && y in g.targetGroups;
  }

  lemma MirroredPairs(n: Node, dg: string, l: string, r: string, x: TargetGroup, y: TargetGroup, unknown: bool)
    requires FindGroup(n, dg).Some? && FindGroup(n, dg).value.targetGroups == [x, y]
    requires x.role == RoleByName(l) && y.role == RoleByName(r)
    ensures PairBroken(n, dg, unknown)
       <==> !(Standard(l) && Standard(r) && l != r) && unknown == (!Standard(l) && !Standard(r))
  {
    MirroredRoles(FindGroup(n, dg).value, l, r, x, y);
  }

  /** A name that is used by neither target group is found nowhere. */
  lemma NameAbsent(n: Node, dg: string, l: string, r: string, tg: string)
    requires TgNames(n, dg) == [l, r] && tg != l && tg != r
    ensures FindTg(n, dg, tg).None?
  {
    TgNamesMember(n, dg, tg);
  }

  /** The ids and the assignments of a mirrored pair always cross. */
  lemma MirroredCross(le: Order, a: Node, b: Node, dg: string, l: string, r: string,
                      idL: int, idR: int, tL: seq<string>, tR: seq<string>)
    requires Mirrored(a, b, dg, l, r, idL, idR, tL, tR) && l != r
    ensures !IdsNotReversed(a, b, dg) && !AssignmentDiffers(le, a, b, dg) && !AssignmentDiffers(le, b, a, dg)
  {
    MirroredLookup(a, b, dg, l, r, idL, idR, tL, tR, l);
    MirroredLookup(a, b, dg, l, r, idL, idR, tL, tR, r);
    if l != "local" && r != "local" {
      NameAbsent(a, dg, l, r, "local");
      NameAbsent(b, dg, l, r, "local");
    }
    if l != "remote" && r != "remote" {
      NameAbsent(a, dg, l, r, "remote");
      NameAbsent(b, dg, l, r, "remote");
    }
  }

  /** What the checker says of a mirrored pair, code by code. */
  ghost predicate Expected(l: string, r: string, c: Code) {
    match c
    case AsymmetricTargetGroups => l == r
    case MissingLocalRemotePair => !(Standard(l) && Standard(r) && l != r) && (Standard(l) || Standard(r))
    case ManualReview => !Standard(l) && !Standard(r)
    case _ => false
  }

  /** The node shows exactly the two named target groups, with the roles of their names. */
  ghost predicate ShowsPair(n: Node, dg: string, l: string, r: string) {
    && n.sshReady && n.deviceGroups != []
    && GroupNames(n) == [dg] && TgNames(n, dg) == [l, r]
    && FindGroup(n, dg).Some? && |FindGroup(n, dg).value.targetGroups| == 2
    && FindGroup(n, dg).value.targetGroups[0].role == RoleByName(l)
    && FindGroup(n, dg).value.targetGroups[1].role == RoleByName(r)
  }

  lemma MirroredRoleCodes(nodes: seq<Node>, dg: string, l: string, r: string, unknown: bool)
    requires nodes != [] && forall n :: n in nodes ==> ShowsPair(n, dg, l, r)
    ensures (exists n :: n in nodes && PairBroken(n, dg, unknown))
       <==> !(Standard(l) && Standard(r) && l != r) && unknown == (!Standard(l) && !Standard(r))
  {
    forall n | n in nodes
      ensures PairBroken(n, dg, unknown)
         <==> !(Standard(l) && Standard(r) && l != r) && unknown == (!Standard(l) && !Standard(r))
    {
      assert ShowsPair(n, dg, l, r);
      var tgs := FindGroup(n, dg).value.targetGroups;
      assert tgs == [tgs[0], tgs[1]];
      MirroredPairs(n, dg, l, r, tgs[0], tgs[1], unknown);
    }
    assert nodes[0] in nodes;
  }

  lemma MirroredStates(a: Node, b: Node, dg: string, l: string, r: string,
                       idL: int, idR: int, tL: seq<string>, tR: seq<string>, tg: string)
    requires Mirrored(a, b, dg, l, r, idL, idR, tL, tR)
    ensures !StatesDiffer([a, b], dg, tg)
  {
    NoState(a, dg, Shown(l, idL, tL), Shown(r, idR, tR), tg);
    NoState(b, dg, Shown(l, idR, tR), Shown(r, idL, tL), tg);
    NoStates([a, b], dg, tg);
  }

  lemma NoStates(nodes: seq<Node>, dg: string, tg: string)
    requires forall n :: n in nodes && FindTg(n, dg, tg).Some? ==> FindTg(n, dg, tg).value.state == StateUnknown
    ensures !StatesDiffer(nodes, dg, tg)
  {
  }

  lemma NoState(n: Node, dg: string, x: TargetGroup, y: TargetGroup, tg: string)
    requires |n.deviceGroups| == 1 && n.deviceGroups[0].name == dg && n.deviceGroups[0].targetGroups == [x, y]
    requires x.state == y.state == StateUnknown
    ensures FindTg(n, dg, tg).Some? ==> FindTg(n, dg, tg).value.state == StateUnknown
  {
    SingleGroupLookup(n, dg);
    PairLookup(n, dg, x, y, tg);
  }

  lemma MirroredShape(a: Node, b: Node, dg: string, l: string, r: string,
                      idL: int, idR: int, tL: seq<string>, tR: seq<string>)
    requires Mirrored(a, b, dg, l, r, idL, idR, tL, tR)
    ensures ShowsPair(a, dg, l, r) && ShowsPair(b, dg, l, r)
  {
    MirroredLookup(a, b, dg, l, r, idL, idR, tL, tR, l);
  }

  lemma MirroredPairwise(le: Order, nodes: seq<Node>, a: Node, b: Node, dg: string, l: string, r: string,
                         idL: int, idR: int, tL: seq<string>, tR: seq<string>, c: Code)
    requires TotalOrder(le) && nodes == [a, b] && Mirrored(a, b, dg, l, r, idL, idR, tL, tR) && l != r
    requires c == GroupIdNotReversed || c == TargetAssignmentMismatch
    ensures !Raised(le, nodes, Options(true, None), dg, c)
  {
    MirroredCross(le, a, b, dg, l, r, idL, idR, tL, tR);
  }

  lemma MirroredPair(le: Order, nodes: seq<Node>, a: Node, b: Node, dg: string, l: string, r: string,
                     idL: int, idR: int, tL: seq<string>, tR: seq<string>, c: Code)
    requires nodes == [a, b] && Mirrored(a, b, dg, l, r, idL, idR, tL, tR)
    requires c == MissingLocalRemotePair || c == ManualReview
    ensures Raised(le, nodes, Options(true, None), dg, c) <==> Expected(l, r, c)
  {
    MirroredShape(a, b, dg, l, r, idL, idR, tL, tR);
    MirroredRoleCodes(nodes, dg, l, r, c == ManualReview);
  }

  lemma MirroredNames(le: Order, nodes: seq<Node>, a: Node, b: Node, dg: string, l: string, r: string,
                      idL: int, idR: int, tL: seq<string>, tR: seq<string>)
    requires TotalOrder(le) && nodes == [a, b] && Mirrored(a, b, dg, l, r, idL, idR, tL, tR)
    ensures Raised(le, nodes, Options(true, None), dg, AsymmetricTargetGroups)
       <==> Expected(l, r, AsymmetricTargetGroups)
  {
    MirroredShape(a, b, dg, l, r, idL, idR, tL, tR);
    SharedTgSets(le, nodes, dg, l, r);
  }

  lemma MirroredRaises(le: Order, nodes: seq<Node>, a: Node, b: Node, dg: string, l: string, r: string,
                       idL: int, idR: int, tL: seq<string>, tR: seq<string>, c: Code)
    requires TotalOrder(le) && nodes == [a, b] && Mirrored(a, b, dg, l, r, idL, idR, tL, tR)
    requires l == r ==> c != GroupIdNotReversed && c != TargetAssignmentMismatch
    ensures Raised(le, nodes, Options(true, None), dg, c) <==> Expected(l, r, c)
  {
    if c == AsymmetricTargetGroups {
      MirroredNames(le, nodes, a, b, dg, l, r, idL, idR, tL, tR);
    } else if c == StateDivergence {
      forall tg ensures !StatesDiffer(nodes, dg, tg) {
        MirroredStates(a, b, dg, l, r, idL, idR, tL, tR, tg);
      }
    } else if c == MissingLocalRemotePair || c == ManualReview {
      MirroredPair(le, nodes, a, b, dg, l, r, idL, idR, tL, tR, c);
    } else if c == GroupIdNotReversed || c == TargetAssignmentMismatch {
      MirroredPairwise(le, nodes, a, b, dg, l, r, idL, idR, tL, tR, c);
    }
  }

  lemma MirroredByNodes(le: Order, nodes: seq<Node>, dg: string, l: string, r: string, c: Code)
    requires nodes != [] && Ready(nodes) == nodes && forall n :: n in nodes ==> ShowsPair(n, dg, l, r)
    ensures RaisedByNodes(le, nodes, Options(true, None), c)
       <==> c != NodeUnreachable && c != MissingAluaConfig && c != AsymmetricDeviceGroups
            && Raised(le, nodes, Options(true, None), dg, c)
  {
    SharedGroupName(le, nodes, dg);
    MirroredGroupNames(le, nodes, dg);
    MirroredSomewhere(le, nodes, dg, c);
  }

  lemma MirroredShapes(nodes: seq<Node>, a: Node, b: Node, dg: string, l: string, r: string,
                       idL: int, idR: int, tL: seq<string>, tR: seq<string>)
    requires nodes == [a, b] && Mirrored(a, b, dg, l, r, idL, idR, tL, tR)
    ensures forall n :: n in nodes ==> ShowsPair(n, dg, l, r)
  {
    MirroredShape(a, b, dg, l, r, idL, idR, tL, tR);
  }

  lemma MirroredExpected(le: Order, nodes: seq<Node>, a: Node, b: Node, dg: string, l: string, r: string,
                         idL: int, idR: int, tL: seq<string>, tR: seq<string>, c: Code)
    requires TotalOrder(le) && nodes == [a, b] && Mirrored(a, b, dg, l, r, idL, idR, tL, tR)
    requires Ready(nodes) == nodes
    requires l == r ==> c != GroupIdNotReversed && c != TargetAssignmentMismatch
    ensures RaisedByNodes(le, nodes, Options(true, None), c) <==> Expected(l, r, c)
  {
    MirroredShapes(nodes, a, b, dg, l, r, idL, idR, tL, tR);
    MirroredByNodes(le, nodes, dg, l, r, c);
    MirroredRaises(le, nodes, a, b, dg, l, r, idL, idR, tL, tR, c);
  }

  lemma MirroredCodes(le: Order, nodes: seq<Node>, a: Node, b: Node, dg: string, l: string, r: string,
                      idL: int, idR: int, tL: seq<string>, tR: seq<string>, c: Code)
    requires TotalOrder(le) && nodes == [a, b] && Mirrored(a, b, dg, l, r, idL, idR, tL, tR)
    requires Ready(nodes) == nodes
    requires l == r ==> c != GroupIdNotReversed && c != TargetAssignmentMismatch
    ensures c in Codes(NodeIssues(le, nodes, Options(true, None))) <==> Expected(l, r, c)
  {
    NodeCodes(le, nodes, Options(true, None), c);
    MirroredExpected(le, nodes, a, b, dg, l, r, idL, idR, tL, tR, c);
  }

  lemma MirroredSomewhere(le: Order, nodes: seq<Node>, dg: string, c: Code)
    requires UnionGroupNames(le, nodes) == [dg]
    ensures RaisedSomewhere(le, nodes, Options(true, None), c) <==> Raised(le, nodes, Options(true, None), dg, c)
  {
    assert dg in UnionGroupNames(le, nodes);
  }

  lemma MirroredGroupNames(le: Order, nodes: seq<Node>, dg: string)
    requires UnionGroupNames(le, nodes) == [dg] && forall n :: n in nodes ==> GroupNames(n) == [dg]
    ensures GroupSetsMatch(le, nodes, UnionGroupNames(le, nodes))
  {
    assert Sort(le, [dg]) == [dg];
  }

  lemma MirroredFingerprints(le: Order, a: Node, b: Node, dg: string, l: string, r: string,
                             idL: int, idR: int, tL: seq<string>, tR: seq<string>)
    requires Mirrored(a, b, dg, l, r, idL, idR, tL, tR)
    ensures Fingerprint(le, a.deviceGroups) == Fingerprint(le, b.deviceGroups)
  {
    var ga, gb := a.deviceGroups[0], b.deviceGroups[0];
    FlattenSingle(a.deviceGroups);
    FlattenSingle(b.deviceGroups);
    assert Map(RowText(), FlatRows()(ga)) == Map(RowText(), FlatRows()(gb));
  }

  lemma FlattenSingle(groups: seq<DeviceGroup>)
    requires |groups| == 1
    ensures Flatten(groups) == FlatRows()(groups[0])
  {
    assert groups[..0] == [];
    assert FlatMap(FlatRows(), groups[..0]) == [];
  }

  lemma MirroredVerdict(le: Order, nodes: seq<Node>, a: Node, b: Node, dg: string, l: string, r: string,
                        idL: int, idR: int, tL: seq<string>, tR: seq<string>)
    requires TotalOrder(le) && nodes == [a, b] && Mirrored(a, b, dg, l, r, idL, idR, tL, tR)
    requires Ready(nodes) == nodes
    ensures var codes := Codes(NodeIssues(le, nodes, Options(true, None)));
            && Judge(codes) == (if GoodNames(l, r) then HealthOk else HealthAsymmetric)
            && (GoodNames(l, r) && Standard(l) ==> codes == {})
  {
    forall c | l == r ==> c != GroupIdNotReversed && c != TargetAssignmentMismatch
      ensures c in Codes(NodeIssues(le, nodes, Options(true, None))) <==> Expected(l, r, c)
    {
      MirroredCodes(le, nodes, a, b, dg, l, r, idL, idR, tL, tR, c);
    }
    MirroredJudge(Codes(NodeIssues(le, nodes, Options(true, None))), l, r);
  }

  lemma MirroredHealth(le: Order, nodes: seq<Node>, a: Node, b: Node, dg: string, l: string, r: string,
                       idL: int, idR: int, tL: seq<string>, tR: seq<string>)
    requires TotalOrder(le) && nodes == [a, b] && Mirrored(a, b, dg, l, r, idL, idR, tL, tR)
    ensures var c := Compare(le, nodes, Options(true, None));
            && c.health == (if GoodNames(l, r) then HealthOk else HealthAsymmetric)
            && (GoodNames(l, r) && Standard(l) ==> c.issues == [])
  {
    FilterAll(ReadyNode(), nodes);
    MirroredFingerprints(le, a, b, dg, l, r, idL, idR, tL, tR);
    SameFingerprints(le, nodes, a, b);
    ReportCodes(le, nodes, Options(true, None));
    MirroredVerdict(le, nodes, a, b, dg, l, r, idL, idR, tL, tR);
    JudgeWithDivergence(Codes(NodeIssues(le, nodes, Options(true, None))), {});
    NoCodesNoIssues(Compare(le, nodes, Options(true, None)).issues);
  }

  lemma SameFingerprints(le: Order, nodes: seq<Node>, a: Node, b: Node)
    requires nodes == [a, b] && Fingerprint(le, a.deviceGroups) == Fingerprint(le, b.deviceGroups)
    ensures !FingerprintsDiffer(le, nodes)
  {
  }

  lemma MirroredJudge(codes: set<Code>, l: string, r: string)
    requires forall c :: (l == r ==> c != GroupIdNotReversed && c != TargetAssignmentMismatch) ==>
                           (c in codes <==> Expected(l, r, c))
    ensures Judge(codes) == if GoodNames(l, r) then HealthOk else HealthAsymmetric
    ensures GoodNames(l, r) && Standard(l) ==> codes == {}
  {
    assert AsymmetricTargetGroups in codes <==> l == r;
    assert InvalidTargetReference !in codes;
  }

  lemma NoCodesNoIssues(issues: seq<Issue>)
    ensures Codes(issues) == {} ==> issues == []
  {
    if issues != [] {
      assert issues[0].code in Codes(issues);
    }
  }

  lemma ShownPlan(le: Order, req: Request, p: NodePlan, nodeId: string, otherId: string, isPrimary: bool)
    requires p.deviceGroup == BuildDeviceGroup(le, req, nodeId, otherId, isPrimary)
    ensures var n := PlanSnapshot(p);
            && n.sshReady && |n.deviceGroups| == 1 && n.deviceGroups[0].name == req.deviceGroupName
            && n.deviceGroups[0].targetGroups
               == [Shown(req.localName, if isPrimary then req.localId else req.remoteId, LocalTargets(le, req, nodeId)),
                   Shown(req.remoteName, if isPrimary then req.remoteId else req.localId,
                         LocalTargets(le, req, otherId))]
  {
  }

  lemma PlanMirrored(le: Order, req: Request, p: NodePlan, q: NodePlan, primaryId: string, peerId: string)
    requires p.deviceGroup == BuildDeviceGroup(le, req, primaryId, peerId, true)
    requires q.deviceGroup == BuildDeviceGroup(le, req, peerId, primaryId, false)
    ensures Mirrored(PlanSnapshot(p), PlanSnapshot(q), req.deviceGroupName, req.localName, req.remoteName,
                     req.localId, req.remoteId, LocalTargets(le, req, primaryId), LocalTargets(le, req, peerId))
  {
    ShownPlan(le, req, p, primaryId, peerId, true);
    ShownPlan(le, req, q, peerId, primaryId, false);
  }

  /** For every request the preview of a plan is `ok` when the target-group names are good and
      `asymmetric` otherwise; with the standard names it reports nothing. Assignments, group
      ids, devices and the configurations never matter. */
  lemma PlannerMeetsChecker(le: Order, req: Request, nodes: seq<NodeInput>)
    requires TotalOrder(le)
    requires BuildClusterPlan(le, req, nodes).Ok?
    ensures var preview := BuildClusterPlan(le, req, nodes).value.preview;
            && preview.health == (if GoodNames(req.localName, req.remoteName) then HealthOk else HealthAsymmetric)
            && (GoodNames(req.localName, req.remoteName) && Standard(req.localName) ==> preview.issues == [])
  {
    var plan := BuildClusterPlan(le, req, nodes).value;
    var p, q := plan.nodes[0], plan.nodes[1];
    var a, b := PlanSnapshot(p), PlanSnapshot(q);
    PlanMirrored(le, req, p, q, plan.primaryNodeId, plan.peerNodeId);
    MirroredHealth(le, [a, b], a, b, req.deviceGroupName, req.localName, req.remoteName, req.localId, req.remoteId,
                   LocalTargets(le, req, plan.primaryNodeId), LocalTargets(le, req, plan.peerNodeId));
  }
}
