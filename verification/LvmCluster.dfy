/** The cluster-wide LVM assessment and its cross-node name checks,
    `utils/lvm-cluster-symmetry.ts`. */
module LvmCluster {
  import opened Sequences
  import opened LvmSymmetry
  import opened LvmVerdict

  function PlainVg(): Vg -> bool { (v: Vg) => !v.clustered }

  /** Names of the groups of a node that are not clustered. */
  function PlainNames(): Inventory -> seq<string> {
    (n: Inventory) => VgNames(Filter(PlainVg(), n.vgs))
  }

  function LvName(): Lv -> string { (l: Lv) => l.name }

  function LvNames(vg: string): Inventory -> seq<string> {
    (n: Inventory) => Dedup(Map(LvName(), Filter(LvIn(vg), n.lvs)))
  }

  function Lacks(names: Inventory -> seq<string>, name: string): Inventory -> bool {
    (n: Inventory) => name !in names(n)
  }

  function AbsentVg(name: string): Inventory -> seq<Issue> {
    (n: Inventory) => [Issue(name, None, Warning, VgMissingOn(n.node))]
  }

  function AbsentLv(vg: string, name: string): Inventory -> seq<Issue> {
    (n: Inventory) => [Issue(vg, None, Warning, LvMissingOn(name, n.node))]
  }

  /** A name that some nodes have and others lack is reported for each of the latter. */
  function VgGaps(nodes: seq<Inventory>): string -> seq<Issue> {
    (name: string) =>
      var absent := Filter(Lacks(PlainNames(), name), nodes);
      if 0 < |absent| < |nodes| then FlatMap(AbsentVg(name), absent) else []
  }

  function LvGaps(nodes: seq<Inventory>, vg: string): string -> seq<Issue> {
    (name: string) =>
      var absent := Filter(Lacks(LvNames(vg), name), nodes);
      if 0 < |absent| < |nodes| then FlatMap(AbsentLv(vg, name), absent) else []
  }

  function CrossVgNames(nodes: seq<Inventory>): seq<Issue> {
    if |nodes| < 2 then [] else FlatMap(VgGaps(nodes), Dedup(FlatMap(PlainNames(), nodes)))
  }

  function CrossLvNames(nodes: seq<Inventory>): string -> seq<Issue> {
    (vg: string) => FlatMap(LvGaps(nodes, vg), Dedup(FlatMap(LvNames(vg), nodes)))
  }

  function CrossChecks(nodes: seq<Inventory>): seq<Issue> {
    if nodes == [] then []
    else CrossVgNames(nodes) + FlatMap(CrossLvNames(nodes), Dedup(FlatMap(PlainNames(), nodes)))
  }

  /** `assessClusterSymmetricLvm`. */
  function AssessCluster(primary: Inventory, peers: seq<Inventory>, allNodes: seq<Inventory>): seq<Issue> {
    Assess(primary, peers) + CrossChecks(allNodes)
  }

  method ReportAbsentVg(issues: seq<Issue>, name: string, absent: seq<Inventory>) returns (out: seq<Issue>)
    ensures out == issues + FlatMap(AbsentVg(name), absent)
  {
    out := issues;
    for j := 0 to |absent|
      invariant out == issues + FlatMap(AbsentVg(name), absent[..j])
    {
      FlatMapStep(AbsentVg(name), absent, j);
      AppendAssociative(issues, FlatMap(AbsentVg(name), absent[..j]), AbsentVg(name)(absent[j]));
      out := out + [Issue(name, None, Warning, VgMissingOn(absent[j].node))];
    }
    assert absent[..|absent|] == absent;
  }

  method ReportAbsentLv(issues: seq<Issue>, vg: string, name: string, absent: seq<Inventory>)
    returns (out: seq<Issue>)
    ensures out == issues + FlatMap(AbsentLv(vg, name), absent)
  {
    out := issues;
    for j := 0 to |absent|
      invariant out == issues + FlatMap(AbsentLv(vg, name), absent[..j])
    {
      FlatMapStep(AbsentLv(vg, name), absent, j);
      AppendAssociative(issues, FlatMap(AbsentLv(vg, name), absent[..j]), AbsentLv(vg, name)(absent[j]));
      out := out + [Issue(vg, None, Warning, LvMissingOn(name, absent[j].node))];
    }
    assert absent[..|absent|] == absent;
  }

  method FindCrossNodeVgNameMismatch(nodes: seq<Inventory>) returns (issues: seq<Issue>)
    ensures issues == CrossVgNames(nodes)
  {
    issues := [];
    if |nodes| < 2 {
      return;
    }
    var union := Dedup(FlatMap(PlainNames(), nodes));
    for i := 0 to |union|
      invariant issues == FlatMap(VgGaps(nodes), union[..i])
    {
      FlatMapStep(VgGaps(nodes), union, i);
      var absent := Filter(Lacks(PlainNames(), union[i]), nodes);
      if 0 < |absent| < |nodes| {
        issues := ReportAbsentVg(issues, union[i], absent);
      }
    }
    assert union[..|union|] == union;
  }

  method FindCrossNodeLvNameMismatch(nodes: seq<Inventory>, vg: string) returns (issues: seq<Issue>)
    ensures issues == CrossLvNames(nodes)(vg)
  {
    issues := [];
    var union := Dedup(FlatMap(LvNames(vg), nodes));
    for i := 0 to |union|
      invariant issues == FlatMap(LvGaps(nodes, vg), union[..i])
    {
      FlatMapStep(LvGaps(nodes, vg), union, i);
      var absent := Filter(Lacks(LvNames(vg), union[i]), nodes);
      if 0 < |absent| < |nodes| {
        issues := ReportAbsentLv(issues, vg, union[i], absent);
      }
    }
    assert union[..|union|] == union;
  }

  method CheckLvNames(nodes: seq<Inventory>, vgs: seq<string>) returns (issues: seq<Issue>)
    ensures issues == FlatMap(CrossLvNames(nodes), vgs)
  {
    issues := [];
    for i := 0 to |vgs|
      invariant issues == FlatMap(CrossLvNames(nodes), vgs[..i])
    {
      FlatMapStep(CrossLvNames(nodes), vgs, i);
      var found := FindCrossNodeLvNameMismatch(nodes, vgs[i]);
      issues := issues + found;
    }
    assert vgs[..|vgs|] == vgs;
  }

  method AssessClusterSymmetricLvm(primary: Inventory, peers: seq<Inventory>, allNodes: seq<Inventory>)
    returns (issues: seq<Issue>)
    ensures issues == AssessCluster(primary, peers, allNodes)
  {
    issues := AssessLocalSymmetricLvm(primary, peers);
    if allNodes == [] {
      return;
    }
    var cross := FindCrossNodeVgNameMismatch(allNodes);
    var volumes := CheckLvNames(allNodes, Dedup(FlatMap(PlainNames(), allNodes)));
    issues := issues + (cross + volumes);
  }

  // --- The cross checks are redundant ---------------------------------------------------

  lemma PlainNamesMember(n: Inventory, name: string)
    requires NothingClustered(n)
    ensures name in PlainNames()(n) <==> HasVg(n, name)
  {
    FilterAll(PlainVg(), n.vgs);
    VgNamesMember(n, name);
  }

  lemma LvNamesMember(n: Inventory, vg: string, name: string)
    ensures name in LvNames(vg)(n) <==> HasLv(n, vg, name)
  {
    var mine := Filter(LvIn(vg), n.lvs);
    var names := Map(LvName(), mine);
    if name in names {
      var i :| 0 <= i < |names| && names[i] == name;
      assert mine[i] in mine;
    }
    if HasLv(n, vg, name) {
      var l :| l in n.lvs && l.vgName == vg && l.name == name;
      assert l in mine;
      var i :| 0 <= i < |mine| && mine[i] == l;
      assert names[i] == name;
    }
  }

  /** All nodes have the same plain groups and, in each, the same volumes. */
  ghost predicate Uniform(nodes: seq<Inventory>) {
    && (forall n, m, vg :: n in nodes && m in nodes && vg in PlainNames()(n) ==> vg in PlainNames()(m))
    && (forall n, m, k, vg, name ::
          (n in nodes && m in nodes && k in nodes && vg in PlainNames()(k) && name in LvNames(vg)(n)) ==>
            name in LvNames(vg)(m))
  }

  lemma NoGap(names: Inventory -> seq<string>, nodes: seq<Inventory>, name: string)
    requires forall n :: n in nodes ==> name in names(n)
    ensures Filter(Lacks(names, name), nodes) == []
  {
    FilterNone(Lacks(names, name), nodes);
  }

  lemma UniformVgs(nodes: seq<Inventory>)
    requires Uniform(nodes)
    ensures CrossVgNames(nodes) == []
  {
    var union := Dedup(FlatMap(PlainNames(), nodes));
    FlatMapEmpty(VgGaps(nodes), union);
    forall name | name in union ensures VgGaps(nodes)(name) == [] {
      FlatMapMember(PlainNames(), nodes, name);
      NoGap(PlainNames(), nodes, name);
    }
  }

  lemma UniformLvs(nodes: seq<Inventory>, k: Inventory, vg: string)
    requires Uniform(nodes) && k in nodes && vg in PlainNames()(k)
    ensures CrossLvNames(nodes)(vg) == []
  {
    var union := Dedup(FlatMap(LvNames(vg), nodes));
    FlatMapEmpty(LvGaps(nodes, vg), union);
    forall name | name in union ensures LvGaps(nodes, vg)(name) == [] {
      FlatMapMember(LvNames(vg), nodes, name);
      NoGap(LvNames(vg), nodes, name);
    }
  }

  lemma UniformChecks(nodes: seq<Inventory>)
    requires Uniform(nodes)
    ensures CrossChecks(nodes) == []
  {
    var union := Dedup(FlatMap(PlainNames(), nodes));
    UniformVgs(nodes);
    FlatMapEmpty(CrossLvNames(nodes), union);
    forall vg | vg in union ensures CrossLvNames(nodes)(vg) == [] {
      FlatMapMember(PlainNames(), nodes, vg);
      var k :| k in nodes && vg in PlainNames()(k);
      UniformLvs(nodes, k, vg);
    }
  }

  lemma AgreeUniform(primary: Inventory, peers: seq<Inventory>)
    requires NothingClustered(primary) && forall y :: y in peers ==> Agree(primary, y)
    ensures Uniform([primary] + peers)
  {
    var nodes := [primary] + peers;
    forall n | n in nodes
      ensures NothingClustered(n)
      ensures forall vg :: vg in PlainNames()(n) <==> HasVg(primary, vg)
      ensures forall vg, name :: HasVg(primary, vg) ==> (name in LvNames(vg)(n) <==> HasLv(primary, vg, name))
    {
      forall vg ensures vg in PlainNames()(n) <==> HasVg(primary, vg) {
        PlainNamesMember(n, vg);
      }
      forall vg, name | HasVg(primary, vg) ensures name in LvNames(vg)(n) <==> HasLv(primary, vg, name) {
        LvNamesMember(n, vg, name);
      }
    }
  }

  /** Over the nodes it was given, the cluster assessment is empty exactly when the local one is: the
      cross-node checks find something only when the pairwise ones do. */
  lemma CrossChecksRedundant(primary: Inventory, peers: seq<Inventory>)
    requires UniqueNames(primary) && forall y :: y in peers ==> UniqueNames(y)
    ensures AssessCluster(primary, peers, [primary] + peers) == [] <==> Assess(primary, peers) == []
  {
    if Assess(primary, peers) == [] {
      AssessExact(primary, peers);
      AgreeUniform(primary, peers);
      UniformChecks([primary] + peers);
    }
  }

  // --- What the cross checks add --------------------------------------------------------

  /** Some issue is about the group. */
  ghost predicate Reports(issues: seq<Issue>, vg: string) {
    exists i :: i in issues && i.vgName == vg
  }

  lemma ClusteredReported(x: Inventory, peers: seq<Inventory>, v: Vg)
    requires v in x.vgs && v.clustered
    ensures Reports(Assess(x, peers), v.name)
  {
    var i := Issue(v.name, None, Critical, VgClustered);
    assert i in ClusteredOf()(v);
    FlatMapMember(ClusteredOf(), x.vgs, i);
    assert i in Assess(x, peers);
  }

  lemma StructureReported(x: Inventory, peers: seq<Inventory>, y: Inventory, i: Issue)
    requires y in peers && i in PeerStructureOf(x)(y)
    ensures Reports(Assess(x, peers), i.vgName)
  {
    FlatMapMember(PeerStructureOf(x), peers, i);
    assert i in Assess(x, peers);
  }

  lemma VolumesReported(x: Inventory, peers: seq<Inventory>, v: Vg, y: Inventory, i: Issue)
    requires v in x.vgs && y in peers && i in VgOnPeer(x, v)(y)
    ensures Reports(Assess(x, peers), i.vgName)
  {
    FlatMapMember(VgOnPeer(x, v), peers, i);
    assert i in VgOnPeers(x, peers)(v);
    FlatMapMember(VgOnPeers(x, peers), x.vgs, i);
    assert i in Assess(x, peers);
  }

  lemma PeerVgNamed(x: Inventory, y: Inventory, vg: string, i: Issue)
    requires i in PeerVgOf(x, y)(vg)
    ensures i.vgName == vg
  {
  }

  lemma LvsNamed(y: Inventory, vg: string, mine: seq<Lv>, i: Issue)
    requires i in FlatMap(LvOf(y, vg), mine)
    ensures i.vgName == vg
  {
    FlatMapMember(LvOf(y, vg), mine, i);
    var l :| l in mine && i in LvOf(y, vg)(l);
  }

  lemma ExtraLvsNamed(y: Inventory, vg: string, mine: seq<Lv>, theirs: seq<Lv>, i: Issue)
    requires i in FlatMap(ExtraLvOf(mine, y, vg), theirs)
    ensures i.vgName == vg
  {
    FlatMapMember(ExtraLvOf(mine, y, vg), theirs, i);
    var l :| l in theirs && i in ExtraLvOf(mine, y, vg)(l);
  }

  lemma VolumesNamed(x: Inventory, y: Inventory, v: Vg, i: Issue)
    requires i in VgOnPeer(x, v)(y)
    ensures i.vgName == v.name
  {
    var mine, theirs := Filter(LvIn(v.name), x.lvs), Filter(LvIn(v.name), y.lvs);
    if i in FlatMap(LvOf(y, v.name), mine) {
      LvsNamed(y, v.name, mine, i);
    } else if i in FlatMap(ExtraLvOf(mine, y, v.name), theirs) {
      ExtraLvsNamed(y, v.name, mine, theirs, i);
    }
  }

  /** A group of the local node that no issue is about: the peer has it, both copies are plain, and the
      volumes are the same. */
  lemma QuietHere(x: Inventory, peers: seq<Inventory>, y: Inventory, v: Vg)
    requires UniqueNames(x) && UniqueNames(y) && y in peers && v in x.vgs && !Reports(Assess(x, peers), v.name)
    ensures Matches(x, y, v.name) && VgAgrees(x, y, v)
  {
    if !Matches(x, y, v.name) {
      VgNamesMember(x, v.name);
      PeerVgExact(x, y, v.name);
      var i := PeerVgOf(x, y)(v.name)[0];
      assert i in PeerVgOf(x, y)(v.name);
      PeerVgNamed(x, y, v.name, i);
      FlatMapMember(PeerVgOf(x, y), VgNames(x.vgs), i);
      StructureReported(x, peers, y, i);
    }
    if !VgAgrees(x, y, v) {
      VgExact(x, y, v);
      var i := VgOnPeer(x, v)(y)[0];
      assert i in VgOnPeer(x, v)(y);
      VolumesNamed(x, y, v, i);
      VolumesReported(x, peers, v, y, i);
    }
  }

  /** A group that the local node lacks and no issue is about: the peer lacks it too. */
  lemma QuietThere(x: Inventory, peers: seq<Inventory>, y: Inventory, vg: string)
    requires y in peers && !HasVg(x, vg) && HasVg(y, vg)
    ensures Reports(Assess(x, peers), vg)
  {
    var w :| w in y.vgs && w.name == vg;
    VgNamesMember(x, vg);
    var i := Issue(vg, None, Warning, VgOnlyOn(y.node));
    assert i in ExtraVgOf(x, y)(w);
    FlatMapMember(ExtraVgOf(x, y), y.vgs, i);
    StructureReported(x, peers, y, i);
  }

  lemma PlainMember(n: Inventory, vg: string)
    ensures vg in PlainNames()(n) <==> exists v :: v in n.vgs && v.name == vg && !v.clustered
  {
    var plain := Filter(PlainVg(), n.vgs);
    var names := Map(VgName(), plain);
    if vg in names {
      var i :| 0 <= i < |names| && names[i] == vg;
      assert plain[i] in plain;
    }
    if v :| v in n.vgs && v.name == vg && !v.clustered {
      assert v in plain;
      var i :| 0 <= i < |plain| && plain[i] == v;
      assert names[i] == vg;
    }
  }

  /** For a group that no issue is about, all nodes have it plain with the same volumes, or none has it. */
  ghost predicate SameEverywhere(x: Inventory, nodes: seq<Inventory>, vg: string) {
    && (forall n :: n in nodes ==> (vg in PlainNames()(n) <==> HasVg(x, vg)))
    && (HasVg(x, vg) ==> forall n, name :: n in nodes ==> (HasLv(n, vg, name) <==> HasLv(x, vg, name)))
  }

  lemma QuietNode(x: Inventory, peers: seq<Inventory>, n: Inventory, vg: string)
    requires UniqueNames(x) && UniqueNames(n) && (n == x || n in peers) && !Reports(Assess(x, peers), vg)
    ensures vg in PlainNames()(n) <==> HasVg(x, vg)
    ensures HasVg(x, vg) ==> forall name :: HasLv(n, vg, name) <==> HasLv(x, vg, name)
  {
    PlainMember(n, vg);
    if HasVg(x, vg) {
      var v :| v in x.vgs && v.name == vg;
      if v.clustered {
        ClusteredReported(x, peers, v);
      }
      if n in peers {
        QuietHere(x, peers, n, v);
      }
    } else if n in peers && HasVg(n, vg) {
      QuietThere(x, peers, n, vg);
    }
  }

  lemma QuietEverywhere(x: Inventory, peers: seq<Inventory>, vg: string)
    requires UniqueNames(x) && (forall y :: y in peers ==> UniqueNames(y)) && !Reports(Assess(x, peers), vg)
    ensures SameEverywhere(x, [x] + peers, vg)
  {
    forall n | n in [x] + peers
      ensures vg in PlainNames()(n) <==> HasVg(x, vg)
      ensures HasVg(x, vg) ==> forall name :: HasLv(n, vg, name) <==> HasLv(x, vg, name)
    {
      QuietNode(x, peers, n, vg);
    }
  }

  lemma Gap(names: Inventory -> seq<string>, nodes: seq<Inventory>, name: string)
    requires 0 < |Filter(Lacks(names, name), nodes)| < |nodes|
    ensures exists n, m :: n in nodes && m in nodes && name in names(n) && name !in names(m)
  {
    var absent := Filter(Lacks(names, name), nodes);
    FilterCount(Lacks(names, name), nodes);
    assert absent[0] in absent;
    assert forall n :: Lacks(names, name)(n) <==> name !in names(n);
  }

  lemma VgGapNamed(nodes: seq<Inventory>, i: Issue)
    requires i in CrossVgNames(nodes)
    ensures exists n, m :: n in nodes && m in nodes && i.vgName in PlainNames()(n) && i.vgName !in PlainNames()(m)
  {
    var union := Dedup(FlatMap(PlainNames(), nodes));
    FlatMapMember(VgGaps(nodes), union, i);
    var name :| name in union && i in VgGaps(nodes)(name);
    FlatMapMember(AbsentVg(name), Filter(Lacks(PlainNames(), name), nodes), i);
    assert i.vgName == name;
    Gap(PlainNames(), nodes, name);
  }

  lemma LvGapIssue(nodes: seq<Inventory>, vg: string, name: string, i: Issue)
    requires i in LvGaps(nodes, vg)(name)
    ensures i.vgName == vg && 0 < |Filter(Lacks(LvNames(vg), name), nodes)| < |nodes|
  {
    var absent := Filter(Lacks(LvNames(vg), name), nodes);
    FlatMapMember(AbsentLv(vg, name), absent, i);
    var n :| n in absent && i in AbsentLv(vg, name)(n);
  }

  lemma LvGapHolders(nodes: seq<Inventory>, vg: string, name: string) returns (n: Inventory, m: Inventory)
    requires 0 < |Filter(Lacks(LvNames(vg), name), nodes)| < |nodes|
    ensures n in nodes && m in nodes && HasLv(n, vg, name) && !HasLv(m, vg, name)
  {
    var names := LvNames(vg);
    Gap(names, nodes, name);
    n, m :| n in nodes && m in nodes && name in names(n) && name !in names(m);
    LvNamesMember(n, vg, name);
    LvNamesMember(m, vg, name);
  }

  lemma LvGapNamed(nodes: seq<Inventory>, vg: string, i: Issue) returns (n: Inventory, m: Inventory, name: string)
    requires i in CrossLvNames(nodes)(vg)
    ensures i.vgName == vg
    ensures n in nodes && m in nodes && HasLv(n, vg, name) && !HasLv(m, vg, name)
  {
    var union := Dedup(FlatMap(LvNames(vg), nodes));
    FlatMapMember(LvGaps(nodes, vg), union, i);
    name :| name in union && i in LvGaps(nodes, vg)(name);
    LvGapIssue(nodes, vg, name, i);
    n, m := LvGapHolders(nodes, vg, name);
  }

  lemma CrossIssueKinds(nodes: seq<Inventory>, i: Issue)
    requires i in CrossChecks(nodes)
    ensures i in CrossVgNames(nodes)
            || exists k, vg :: k in nodes && vg in PlainNames()(k) && i in CrossLvNames(nodes)(vg)
  {
    var union := Dedup(FlatMap(PlainNames(), nodes));
    if i !in CrossVgNames(nodes) {
      FlatMapMember(CrossLvNames(nodes), union, i);
      var vg :| vg in union && i in CrossLvNames(nodes)(vg);
      FlatMapMember(PlainNames(), nodes, vg);
    }
  }

  lemma CrossVgReported(x: Inventory, peers: seq<Inventory>, nodes: seq<Inventory>, i: Issue)
    requires UniqueNames(x) && (forall y :: y in peers ==> UniqueNames(y))
    requires nodes == [x] + peers && i in CrossVgNames(nodes)
    ensures Reports(Assess(x, peers), i.vgName)
  {
    VgGapNamed(nodes, i);
    if !Reports(Assess(x, peers), i.vgName) {
      QuietEverywhere(x, peers, i.vgName);
    }
  }

  lemma SameNoLvGap(x: Inventory, nodes: seq<Inventory>, vg: string, k: Inventory, n: Inventory, m: Inventory,
                    name: string)
    requires SameEverywhere(x, nodes, vg) && k in nodes && vg in PlainNames()(k)
    requires n in nodes && m in nodes && HasLv(n, vg, name)
    ensures HasLv(m, vg, name)
  {
  }

  lemma LvGapReported(x: Inventory, peers: seq<Inventory>, nodes: seq<Inventory>, vg: string, k: Inventory,
                      n: Inventory, m: Inventory, name: string)
    requires UniqueNames(x) && (forall y :: y in peers ==> UniqueNames(y))
    requires nodes == [x] + peers && k in nodes && vg in PlainNames()(k)
    requires n in nodes && m in nodes && HasLv(n, vg, name) && !HasLv(m, vg, name)
    ensures Reports(Assess(x, peers), vg)
  {
    if !Reports(Assess(x, peers), vg) {
      QuietEverywhere(x, peers, vg);
      SameNoLvGap(x, nodes, vg, k, n, m, name);
    }
  }

  lemma CrossLvReported(x: Inventory, peers: seq<Inventory>, nodes: seq<Inventory>, k: Inventory, vg: string, i: Issue)
    requires UniqueNames(x) && (forall y :: y in peers ==> UniqueNames(y))
    requires nodes == [x] + peers && k in nodes && vg in PlainNames()(k) && i in CrossLvNames(nodes)(vg)
    ensures Reports(Assess(x, peers), i.vgName)
  {
    var n, m, name := LvGapNamed(nodes, vg, i);
    LvGapReported(x, peers, nodes, vg, k, n, m, name);
  }

  /** The cross-node checks add issues, but only about groups that the pairwise checks report as well. */
  lemma CrossIssuesNamed(x: Inventory, peers: seq<Inventory>, i: Issue)
    requires UniqueNames(x) && (forall y :: y in peers ==> UniqueNames(y)) && i in CrossChecks([x] + peers)
    ensures Reports(Assess(x, peers), i.vgName)
  {
    var nodes := [x] + peers;
    CrossIssueKinds(nodes, i);
    if i in CrossVgNames(nodes) {
      CrossVgReported(x, peers, nodes, i);
    } else {
      var k, vg :| k in nodes && vg in PlainNames()(k) && i in CrossLvNames(nodes)(vg);
      CrossLvReported(x, peers, nodes, k, vg, i);
    }
  }

  lemma GapReported(nodes: seq<Inventory>, n: Inventory, m: Inventory, vg: string)
    requires n in nodes && m in nodes && vg in PlainNames()(n) && vg !in PlainNames()(m)
    ensures Issue(vg, None, Warning, VgMissingOn(m.node)) in VgGaps(nodes)(vg)
  {
    var absent := Filter(Lacks(PlainNames(), vg), nodes);
    FilterCount(Lacks(PlainNames(), vg), nodes);
    assert !Lacks(PlainNames(), vg)(n) && Lacks(PlainNames(), vg)(m) && m in absent;
    var i := Issue(vg, None, Warning, VgMissingOn(m.node));
    assert i in AbsentVg(vg)(m);
    FlatMapMember(AbsentVg(vg), absent, i);
  }

  lemma GapFound(nodes: seq<Inventory>, n: Inventory, vg: string, i: Issue)
    requires n in nodes && |nodes| >= 2 && vg in PlainNames()(n) && i in VgGaps(nodes)(vg)
    ensures i in CrossVgNames(nodes)
  {
    FlatMapMember(PlainNames(), nodes, vg);
    FlatMapMember(VgGaps(nodes), Dedup(FlatMap(PlainNames(), nodes)), i);
  }

  /** With three nodes they do add one: a group that only `y` has is reported as absent on `z`, about which
      the pairwise checks say nothing. */
  lemma CrossIssueExample(x: Inventory, y: Inventory, z: Inventory, v: Vg, nodes: seq<Inventory>)
    requires nodes == [x, y, z] && x.vgs == z.vgs == [] && y.vgs == [v] && !v.clustered
    ensures Issue(v.name, None, Warning, VgMissingOn(z.node)) in CrossVgNames(nodes)
    ensures PeerStructureOf(x)(z) == [] && FlatMap(VgOnPeers(x, [y, z]), x.vgs) == []
  {
    PlainMember(y, v.name);
    PlainMember(z, v.name);
    assert y in nodes && z in nodes && v in y.vgs;
    GapReported(nodes, y, z, v.name);
    GapFound(nodes, y, v.name, Issue(v.name, None, Warning, VgMissingOn(z.node)));
  }
}
