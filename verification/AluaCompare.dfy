/** The ALUA symmetry checker, `server/utils/alua-cluster-compare.ts`.

    Every pass over the nodes appends to one list of issues. Each is given twice: as the
    function of its inputs that it computes, and as the loop that the program runs. */
module AluaCompare {
  import opened Sequences
  import opened Collation
  import opened AluaModel

  datatype Code =
    | MissingAluaConfig | AsymmetricDeviceGroups | AsymmetricTargetGroups | MissingLocalRemotePair
    | GroupIdNotReversed | TargetAssignmentMismatch | InvalidTargetReference | StateDivergence
    | NodeUnreachable | ManualReview

  datatype Severity = Error | Warning | Info

  datatype Health = HealthOk | HealthMissing | HealthAsymmetric | HealthInvalidRefs | HealthUnknown

  datatype Issue = Issue(
    code: Code, nodeIds: seq<string>,
    deviceGroup: Option<string>, targetGroup: Option<string>, targetName: Option<string>)
  {
    /** The program writes the severity beside the code; it is the same for each code. */
    function Severity(): Severity {
      match code
      case StateDivergence => Warning
      case NodeUnreachable => Warning
      case ManualReview => Info
      case _ => Error
    }
  }

  datatype Comparison = Comparison(health: Health, issues: seq<Issue>)

  /** `enabled` is `expectLocalRemotePair !== false`; `conf` are the targets of `scst.conf` by node. */
  datatype Options = Options(enabled: bool, conf: Option<map<string, set<string>>>)

  type Order = (string, string) -> bool

  function ReadyNode(): Node -> bool { (n: Node) => n.sshReady }
  function UnreadyNode(): Node -> bool { (n: Node) => !n.sshReady }
  function NodeId(): Node -> string { (n: Node) => n.nodeId }
  function Ready(nodes: seq<Node>): seq<Node> { Filter(ReadyNode(), nodes) }
  function Ids(nodes: seq<Node>): seq<string> { Map(NodeId(), nodes) }

  // --- Unions of names ------------------------------------------------------------------

  function NodeGroupNames(): Node -> seq<string> { (n: Node) => GroupNames(n) }
  function NodeTgNames(dg: string): Node -> seq<string> { (n: Node) => TgNames(n, dg) }

  function UnionGroupNames(le: Order, nodes: seq<Node>): seq<string> {
    Sort(le, Dedup(FlatMap(NodeGroupNames(), nodes)))
  }

  function UnionTgNames(le: Order, nodes: seq<Node>, dg: string): seq<string> {
    Sort(le, Dedup(FlatMap(NodeTgNames(dg), nodes)))
  }

  /** Adding a list to an insertion-ordered set. */
  method AddAll(names: seq<string>, more: seq<string>, ghost added: seq<string>) returns (r: seq<string>)
    requires names == Dedup(added)
    ensures r == Dedup(added + more)
  {
    r := names;
    assert added + more[..0] == added;
    for i := 0 to |more|
      invariant r == Dedup(added + more[..i])
    {
      assert added + more[..i + 1] == (added + more[..i]) + [more[i]];
      assert (added + more[..i + 1])[..|added| + i] == added + more[..i];
      if more[i] !in r {
        r := r + [more[i]];
      }
    }
    assert more[..|more|] == more;
  }

  method UnionDeviceGroupNames(le: Order, nodes: seq<Node>) returns (names: seq<string>)
    ensures names == UnionGroupNames(le, nodes)
  {
    names := [];
    for i := 0 to |nodes|
      invariant names == Dedup(FlatMap(NodeGroupNames(), nodes[..i]))
    {
      names := AddAll(names, GroupNames(nodes[i]), FlatMap(NodeGroupNames(), nodes[..i]));
      FlatMapStep(NodeGroupNames(), nodes, i);
    }
    assert nodes[..|nodes|] == nodes;
    names := Sort(le, names);
  }

  method UnionTargetGroupNames(le: Order, nodes: seq<Node>, dg: string) returns (names: seq<string>)
    ensures names == UnionTgNames(le, nodes, dg)
  {
    names := [];
    for i := 0 to |nodes|
      invariant names == Dedup(FlatMap(NodeTgNames(dg), nodes[..i]))
    {
      names := AddAll(names, TgNames(nodes[i], dg), FlatMap(NodeTgNames(dg), nodes[..i]));
      FlatMapStep(NodeTgNames(dg), nodes, i);
    }
    assert nodes[..|nodes|] == nodes;
    names := Sort(le, names);
  }

  predicate GroupNamesAre(le: Order, n: Node, expected: seq<string>) {
    Join(Sort(le, GroupNames(n))) == Join(expected)
  }

  predicate GroupSetsMatch(le: Order, nodes: seq<Node>, expected: seq<string>) {
    forall n :: n in nodes ==> GroupNamesAre(le, n, expected)
  }

  function GroupNamesTest(le: Order, expected: seq<string>): Node -> bool {
    (n: Node) => GroupNamesAre(le, n, expected)
  }

  method DeviceGroupSetsMatch(le: Order, nodes: seq<Node>, expected: seq<string>) returns (same: bool)
    ensures same <==> GroupSetsMatch(le, nodes, expected)
  {
    same := Every(GroupNamesTest(le, expected), nodes);
    assert forall n :: GroupNamesTest(le, expected)(n) == GroupNamesAre(le, n, expected);
  }

  predicate TgNamesAre(le: Order, n: Node, dg: string, expected: seq<string>) {
    Join(Sort(le, TgNames(n, dg))) == Join(expected)
  }

  predicate TgSetsMatch(le: Order, nodes: seq<Node>, dg: string, expected: seq<string>) {
    forall n :: n in nodes ==> TgNamesAre(le, n, dg, expected)
  }

  function TgNamesTest(le: Order, dg: string, expected: seq<string>): Node -> bool {
    (n: Node) => TgNamesAre(le, n, dg, expected)
  }

  method TargetGroupSetsMatch(le: Order, nodes: seq<Node>, dg: string, expected: seq<string>)
    returns (same: bool)
    ensures same <==> TgSetsMatch(le, nodes, dg, expected)
  {
    same := Every(TgNamesTest(le, dg, expected), nodes);
    assert forall n :: TgNamesTest(le, dg, expected)(n) == TgNamesAre(le, n, dg, expected);
  }

  // --- The passes -----------------------------------------------------------------------

  function MissingOf(): Node -> seq<Issue> {
    (n: Node) =>
      if n.deviceGroups == [] then [Issue(MissingAluaConfig, [n.nodeId], None, None, None)] else []
  }

  function UnreachableOf(): Node -> seq<Issue> {
    (n: Node) => [Issue(NodeUnreachable, [n.nodeId], None, None, None)]
  }

  function PresencePass(nodes: seq<Node>): seq<Issue> {
    FlatMap(MissingOf(), Ready(nodes)) + FlatMap(UnreachableOf(), Filter(UnreadyNode(), nodes))
  }

  function GroupSetPass(le: Order, ready: seq<Node>): seq<Issue> {
    if GroupSetsMatch(le, ready, UnionGroupNames(le, ready)) then []
    else [Issue(AsymmetricDeviceGroups, Ids(ready), None, None, None)]
  }

  function TgSetPass(le: Order, ready: seq<Node>, dg: string, tgNames: seq<string>): seq<Issue> {
    if TgSetsMatch(le, ready, dg, tgNames) then []
    else [Issue(AsymmetricTargetGroups, Ids(ready), Some(dg), None, None)]
  }

  /** The state of one target group on a node, if the node has it. */
  function StateSeen(dg: string, tg: string): Node -> seq<State> {
    (n: Node) =>
      match FindTg(n, dg, tg)
      case None => []
      case Some(t) => [t.state]
  }

  function StatesSeen(nodes: seq<Node>, dg: string, tg: string): seq<State> {
    Dedup(FlatMap(StateSeen(dg, tg), nodes))
  }

  function StateOf(nodes: seq<Node>, dg: string): string -> seq<Issue> {
    (tg: string) =>
      if |StatesSeen(nodes, dg, tg)| > 1
      then [Issue(StateDivergence, Ids(nodes), Some(dg), Some(tg), None)] else []
  }

  function StatePass(nodes: seq<Node>, dg: string, tgNames: seq<string>): seq<Issue> {
    FlatMap(StateOf(nodes, dg), tgNames)
  }

  /** The set of states that the nodes report for one target group. */
  method CollectStates(nodes: seq<Node>, dg: string, tg: string) returns (states: seq<State>)
    ensures states == StatesSeen(nodes, dg, tg)
  {
    states := [];
    for j := 0 to |nodes|
      invariant states == Dedup(FlatMap(StateSeen(dg, tg), nodes[..j]))
    {
      states := AddSeen(states, FindTg(nodes[j], dg, tg), FlatMap(StateSeen(dg, tg), nodes[..j]));
      FlatMapStep(StateSeen(dg, tg), nodes, j);
    }
    assert nodes[..|nodes|] == nodes;
  }

  method AddSeen(states: seq<State>, found: Option<TargetGroup>, ghost seen: seq<State>) returns (r: seq<State>)
    requires states == Dedup(seen)
    ensures r == Dedup(seen + match found case None => [] case Some(t) => [t.state])
  {
    r := states;
    match found
    case None =>
      assert seen + [] == seen;
    case Some(t) =>
      assert (seen + [t.state])[..|seen|] == seen;
      if t.state !in r {
        r := r + [t.state];
      }
  }

  method CheckStateDivergence(issues: seq<Issue>, nodes: seq<Node>, dg: string, tgNames: seq<string>)
    returns (out: seq<Issue>)
    ensures out == issues + StatePass(nodes, dg, tgNames)
  {
    out := issues;
    for i := 0 to |tgNames|
      invariant out == issues + FlatMap(StateOf(nodes, dg), tgNames[..i])
    {
      FlatMapStep(StateOf(nodes, dg), tgNames, i);
      AppendAssociative(issues, FlatMap(StateOf(nodes, dg), tgNames[..i]), StateOf(nodes, dg)(tgNames[i]));
      var found := CheckStates(nodes, dg, tgNames[i]);
      out := out + found;
    }
    assert tgNames[..|tgNames|] == tgNames;
  }

  method CheckStates(nodes: seq<Node>, dg: string, tg: string) returns (found: seq<Issue>)
    ensures found == StateOf(nodes, dg)(tg)
  {
    found := [];
    var states := CollectStates(nodes, dg, tg);
    if |states| > 1 {
      found := [Issue(StateDivergence, Ids(nodes), Some(dg), Some(tg), None)];
    }
  }

  predicate HasRole(g: DeviceGroup, role: Role) {
    exists t :: t in g.targetGroups && t.role == role
  }

  predicate RolesPaired(g: DeviceGroup) {
    HasRole(g, Local) && HasRole(g, Remote)
  }

  predicate RolesAllUnknown(g: DeviceGroup) {
    forall t :: t in g.targetGroups ==> t.role == RoleUnknown
  }

  function PairOf(dg: string): Node -> seq<Issue> {
    (n: Node) =>
      match FindGroup(n, dg)
      case None => []
      case Some(g) =>
        if RolesPaired(g) then []
        else [Issue(if RolesAllUnknown(g) then ManualReview else MissingLocalRemotePair,
                    [n.nodeId], Some(dg), None, None)]
  }

  function PairPass(nodes: seq<Node>, dg: string, enabled: bool): seq<Issue> {
    if enabled then FlatMap(PairOf(dg), nodes) else []
  }

  method CheckLocalRemotePair(issues: seq<Issue>, nodes: seq<Node>, dg: string, enabled: bool)
    returns (out: seq<Issue>)
    ensures out == issues + PairPass(nodes, dg, enabled)
  {
    out := issues;
    if !enabled {
      return;
    }
    for i := 0 to |nodes|
      invariant out == issues + FlatMap(PairOf(dg), nodes[..i])
    {
      FlatMapStep(PairOf(dg), nodes, i);
      AppendAssociative(issues, FlatMap(PairOf(dg), nodes[..i]), PairOf(dg)(nodes[i]));
      var found := CheckPairOn(nodes[i], dg);
      out := out + found;
    }
    assert nodes[..|nodes|] == nodes;
  }

  method CheckPairOn(n: Node, dg: string) returns (issues: seq<Issue>)
    ensures issues == PairOf(dg)(n)
  {
    issues := [];
    var found := FindGroup(n, dg);
    if found.Some? {
      var roles := set t | t in found.value.targetGroups :: t.role;
      assert forall r :: r in roles <==> HasRole(found.value, r);
      if Local !in roles || Remote !in roles {
        var unknownOnly := forall t :: t in found.value.targetGroups ==> t.role == RoleUnknown;
        var code := if unknownOnly then ManualReview else MissingLocalRemotePair;
        issues := [Issue(code, [n.nodeId], Some(dg), None, None)];
      }
    }
  }

  /** Both pairs are there with known ids, and they do not cross. */
  predicate IdsNotReversed(a: Node, b: Node, dg: string) {
    var localA, remoteA := FindTg(a, dg, "local"), FindTg(a, dg, "remote");
    var localB, remoteB := FindTg(b, dg, "local"), FindTg(b, dg, "remote");
    && localA.Some? && remoteA.Some? && localB.Some? && remoteB.Some?
    && localA.value.groupId.Some? && remoteA.value.groupId.Some?
    && localB.value.groupId.Some? && remoteB.value.groupId.Some?
    && !(localA.value.groupId == remoteB.value.groupId && remoteA.value.groupId == localB.value.groupId)
  }

  function IdPass(nodes: seq<Node>, dg: string, enabled: bool): seq<Issue> {
    if enabled && |nodes| == 2 && IdsNotReversed(nodes[0], nodes[1], dg)
    then [Issue(GroupIdNotReversed, [nodes[0].nodeId, nodes[1].nodeId], Some(dg), None, None)]
    else []
  }

  method CheckReversedGroupIds(issues: seq<Issue>, nodes: seq<Node>, dg: string, enabled: bool)
    returns (out: seq<Issue>)
    ensures out == issues + IdPass(nodes, dg, enabled)
  {
    out := issues;
    if !enabled || |nodes| != 2 {
      return;
    }
    var a, b := nodes[0], nodes[1];
    var localA, remoteA := FindTg(a, dg, "local"), FindTg(a, dg, "remote");
    var localB, remoteB := FindTg(b, dg, "local"), FindTg(b, dg, "remote");
    if localA.None? || remoteA.None? || localB.None? || remoteB.None? {
      return;
    }
    if localA.value.groupId.None? || remoteA.value.groupId.None?
       || localB.value.groupId.None? || remoteB.value.groupId.None? {
      return;
    }
    var reversed :=
      localA.value.groupId == remoteB.value.groupId && remoteA.value.groupId == localB.value.groupId;
    if !reversed {
      out := out + [Issue(GroupIdNotReversed, [a.nodeId, b.nodeId], Some(dg), None, None)];
    }
  }

  /** The local targets of `a` and the remote targets of `b` are both given and differ. */
  predicate AssignmentDiffers(le: Order, a: Node, b: Node, dg: string) {
    var localA, remoteB := FindTg(a, dg, "local"), FindTg(b, dg, "remote");
    && localA.Some? && remoteB.Some?
    && localA.value.targets != [] && remoteB.value.targets != []
    && Sort(le, localA.value.targets) != Sort(le, remoteB.value.targets)
  }

  function AssignPass(le: Order, nodes: seq<Node>, dg: string): seq<Issue> {
    if |nodes| == 2 && (AssignmentDiffers(le, nodes[0], nodes[1], dg) || AssignmentDiffers(le, nodes[1], nodes[0], dg))
    then [Issue(TargetAssignmentMismatch, [nodes[0].nodeId, nodes[1].nodeId], Some(dg), None, None)]
    else []
  }

  /** `setsEqual` on two sorted lists: same length and equal at every index. */
  method SetsEqual(a: seq<string>, b: seq<string>) returns (same: bool)
    ensures same <==> a == b
  {
    if |a| != |b| {
      return false;
    }
    for i := 0 to |a|
      invariant a[..i] == b[..i]
    {
      if a[i] != b[i] {
        return false;
      }
    }
    assert a[..|a|] == a && b[..|a|] == b;
    return true;
  }

  method CheckTargetAssignment(le: Order, issues: seq<Issue>, nodes: seq<Node>, dg: string)
    returns (out: seq<Issue>)
    ensures out == issues + AssignPass(le, nodes, dg)
  {
    out := issues;
    if |nodes| != 2 {
      return;
    }
    var a, b := nodes[0], nodes[1];
    var issue := Issue(TargetAssignmentMismatch, [a.nodeId, b.nodeId], Some(dg), None, None);
    var localA, remoteB := FindTg(a, dg, "local"), FindTg(b, dg, "remote");
    if localA.Some? && remoteB.Some? {
      var localNames, remoteNames := Sort(le, localA.value.targets), Sort(le, remoteB.value.targets);
      var same := SetsEqual(localNames, remoteNames);
      if |localNames| > 0 && |remoteNames| > 0 && !same {
        out := out + [issue];
        return;
      }
    }
    var localB, remoteA := FindTg(b, dg, "local"), FindTg(a, dg, "remote");
    if localB.Some? && remoteA.Some? {
      var localNames, remoteNames := Sort(le, localB.value.targets), Sort(le, remoteA.value.targets);
      var same := SetsEqual(localNames, remoteNames);
      if |localNames| > 0 && |remoteNames| > 0 && !same {
        out := out + [issue];
      }
    }
  }

  function RefOfTarget(n: Node, dg: string, tg: string, known: set<string>): string -> seq<Issue> {
    (t: string) =>
      if t in known then []
      else [Issue(InvalidTargetReference, [n.nodeId], Some(dg), Some(tg), Some(t))]
  }

  function RefOfTg(n: Node, dg: string, known: set<string>): TargetGroup -> seq<Issue> {
    (tg: TargetGroup) => FlatMap(RefOfTarget(n, dg, tg.name, known), tg.targets)
  }

  function RefOf(dg: string, conf: map<string, set<string>>): Node -> seq<Issue> {
    (n: Node) =>
      if n.nodeId in conf then FlatMap(RefOfTg(n, dg, conf[n.nodeId]), TargetGroupsOf(n, dg)) else []
  }

  function RefPass(nodes: seq<Node>, dg: string, conf: Option<map<string, set<string>>>): seq<Issue> {
    if conf.Some? then FlatMap(RefOf(dg, conf.value), nodes) else []
  }

  method CheckInvalidTargetRefs(issues: seq<Issue>, nodes: seq<Node>, dg: string,
                                conf: Option<map<string, set<string>>>)
    returns (out: seq<Issue>)
    ensures out == issues + RefPass(nodes, dg, conf)
  {
    out := issues;
    if conf.None? {
      return;
    }
    for i := 0 to |nodes|
      invariant out == issues + FlatMap(RefOf(dg, conf.value), nodes[..i])
    {
      FlatMapStep(RefOf(dg, conf.value), nodes, i);
      ghost var before := FlatMap(RefOf(dg, conf.value), nodes[..i]);
      if nodes[i].nodeId in conf.value {
        out := CheckRefsOfNode(out, nodes[i], dg, conf.value[nodes[i].nodeId]);
        AppendAssociative(issues, before, RefOf(dg, conf.value)(nodes[i]));
      }
    }
    assert nodes[..|nodes|] == nodes;
  }

  method CheckRefsOfNode(issues: seq<Issue>, n: Node, dg: string, known: set<string>) returns (out: seq<Issue>)
    ensures out == issues + FlatMap(RefOfTg(n, dg, known), TargetGroupsOf(n, dg))
  {
    out := issues;
    var tgs := TargetGroupsOf(n, dg);
    for j := 0 to |tgs|
      invariant out == issues + FlatMap(RefOfTg(n, dg, known), tgs[..j])
    {
      FlatMapStep(RefOfTg(n, dg, known), tgs, j);
      AppendAssociative(issues, FlatMap(RefOfTg(n, dg, known), tgs[..j]), RefOfTg(n, dg, known)(tgs[j]));
      out := CheckRefsOfGroup(out, n, dg, tgs[j], known);
    }
    assert tgs[..|tgs|] == tgs;
  }

  method CheckRefsOfGroup(issues: seq<Issue>, n: Node, dg: string, tg: TargetGroup, known: set<string>)
    returns (out: seq<Issue>)
    ensures out == issues + RefOfTg(n, dg, known)(tg)
  {
    out := issues;
    for k := 0 to |tg.targets|
      invariant out == issues + FlatMap(RefOfTarget(n, dg, tg.name, known), tg.targets[..k])
    {
      if tg.targets[k] !in known {
        out := out + [Issue(InvalidTargetReference, [n.nodeId], Some(dg), Some(tg.name), Some(tg.targets[k]))];
      }
      FlatMapStep(RefOfTarget(n, dg, tg.name, known), tg.targets, k);
    }
    assert tg.targets[..|tg.targets|] == tg.targets;
  }

  function ShapePassesOver(le: Order, ready: seq<Node>, enabled: bool, dg: string, tgNames: seq<string>): seq<Issue> {
    TgSetPass(le, ready, dg, tgNames) + StatePass(ready, dg, tgNames) + PairPass(ready, dg, enabled)
  }

  function ShapePasses(le: Order, ready: seq<Node>, enabled: bool, dg: string): seq<Issue> {
    ShapePassesOver(le, ready, enabled, dg, UnionTgNames(le, ready, dg))
  }

  function TargetPasses(le: Order, ready: seq<Node>, options: Options, dg: string): seq<Issue> {
    IdPass(ready, dg, options.enabled) + AssignPass(le, ready, dg) + RefPass(ready, dg, options.conf)
  }

  /** Everything reported about one device group. */
  function GroupPasses(le: Order, ready: seq<Node>, options: Options): string -> seq<Issue> {
    (dg: string) => ShapePasses(le, ready, options.enabled, dg) + TargetPasses(le, ready, options, dg)
  }

  // --- The fingerprint pass and the verdict ---------------------------------------------

  function NodeFingerprint(le: Order): Node -> string {
    (n: Node) => Fingerprint(le, n.deviceGroups)
  }

  function NotEmpty(): string -> bool { (s: string) => |s| > 0 }

  function Fingerprints(le: Order, ready: seq<Node>): seq<string> {
    Filter(NotEmpty(), Map(NodeFingerprint(le), ready))
  }

  function Codes(issues: seq<Issue>): set<Code> {
    set i | i in issues :: i.code
  }

  const STRUCTURAL: set<Code> :=
    {AsymmetricDeviceGroups, AsymmetricTargetGroups, GroupIdNotReversed, TargetAssignmentMismatch}

  const ASYMMETRIC: set<Code> := STRUCTURAL + {MissingLocalRemotePair}

  function FingerprintPass(le: Order, ready: seq<Node>, issues: seq<Issue>): seq<Issue> {
    var fps := Fingerprints(le, ready);
    if |fps| >= 2 && |Dedup(fps)| > 1 && Codes(issues) !! STRUCTURAL
    then [Issue(StateDivergence, Ids(ready), None, None, None)] else []
  }

  predicate HasSeverity(issues: seq<Issue>, severity: Severity) {
    exists i :: i in issues && i.Severity() == severity
  }

  function HealthOf(issues: seq<Issue>): Health {
    if InvalidTargetReference in Codes(issues) then HealthInvalidRefs
    else if !(Codes(issues) !! ASYMMETRIC) then HealthAsymmetric
    else if MissingAluaConfig in Codes(issues) then HealthMissing
    else if HasSeverity(issues, Error) then HealthAsymmetric
    else if exists i :: i in issues && i.Severity() == Warning && i.code != NodeUnreachable then HealthAsymmetric
    else HealthOk
  }

  /** What the passes report before the fingerprints are looked at. */
  function NodeIssues(le: Order, nodes: seq<Node>, options: Options): seq<Issue> {
    var ready := Ready(nodes);
    PresencePass(nodes)
    + if |ready| < 2 then []
      else GroupsPass(le, ready, options)
  }

  function GroupsPass(le: Order, ready: seq<Node>, options: Options): seq<Issue> {
    GroupSetPass(le, ready) + FlatMap(GroupPasses(le, ready, options), UnionGroupNames(le, ready))
  }

  function Compare(le: Order, nodes: seq<Node>, options: Options): Comparison {
    var ready := Ready(nodes);
    var issues := NodeIssues(le, nodes, options);
    if |ready| < 2 then Comparison(HealthUnknown, issues)
    else
      var all := issues + FingerprintPass(le, ready, issues);
      Comparison(HealthOf(all), all)
  }

  method ReportPresence(nodes: seq<Node>) returns (issues: seq<Issue>)
    ensures issues == PresencePass(nodes)
  {
    issues := [];
    var ready := Ready(nodes);
    for i := 0 to |ready|
      invariant issues == FlatMap(MissingOf(), ready[..i])
    {
      if |ready[i].deviceGroups| == 0 {
        issues := issues + [Issue(MissingAluaConfig, [ready[i].nodeId], None, None, None)];
      }
      FlatMapStep(MissingOf(), ready, i);
    }
    assert ready[..|ready|] == ready;
    var unreachable := Filter(UnreadyNode(), nodes);
    ghost var before := issues;
    for i := 0 to |unreachable|
      invariant issues == before + FlatMap(UnreachableOf(), unreachable[..i])
    {
      issues := issues + [Issue(NodeUnreachable, [unreachable[i].nodeId], None, None, None)];
      FlatMapStep(UnreachableOf(), unreachable, i);
    }
    assert unreachable[..|unreachable|] == unreachable;
  }

  method ReportShape(le: Order, issues: seq<Issue>, ready: seq<Node>, dg: string, enabled: bool)
    returns (out: seq<Issue>)
    ensures out == issues + ShapePasses(le, ready, enabled, dg)
  {
    var tgNames := UnionTargetGroupNames(le, ready, dg);
    var same := TargetGroupSetsMatch(le, ready, dg, tgNames);
    ghost var a, b, c :=
      TgSetPass(le, ready, dg, tgNames), StatePass(ready, dg, tgNames), PairPass(ready, dg, enabled);
    out := if same then issues else issues + [Issue(AsymmetricTargetGroups, Ids(ready), Some(dg), None, None)];
    assert out == issues + a;
    out := CheckStateDivergence(out, ready, dg, tgNames);
    out := CheckLocalRemotePair(out, ready, dg, enabled);
    AppendAssociative(issues, a, b);
    AppendAssociative(issues, a + b, c);
  }

  method ReportTargets(le: Order, issues: seq<Issue>, ready: seq<Node>, dg: string, options: Options)
    returns (out: seq<Issue>)
    ensures out == issues + TargetPasses(le, ready, options, dg)
  {
    ghost var a, b, c :=
      IdPass(ready, dg, options.enabled), AssignPass(le, ready, dg), RefPass(ready, dg, options.conf);
    out := CheckReversedGroupIds(issues, ready, dg, options.enabled);
    out := CheckTargetAssignment(le, out, ready, dg);
    out := CheckInvalidTargetRefs(out, ready, dg, options.conf);
    AppendAssociative(issues, a, b);
    AppendAssociative(issues, a + b, c);
  }

  /** The body of the loop over the device groups. */
  method ReportGroup(le: Order, issues: seq<Issue>, ready: seq<Node>, dg: string, options: Options)
    returns (out: seq<Issue>)
    ensures out == issues + GroupPasses(le, ready, options)(dg)
  {
    out := ReportShape(le, issues, ready, dg, options.enabled);
    out := ReportTargets(le, out, ready, dg, options);
    AppendAssociative(issues, ShapePasses(le, ready, options.enabled, dg), TargetPasses(le, ready, options, dg));
  }

  method ReportGroups(le: Order, issues: seq<Issue>, ready: seq<Node>, options: Options) returns (out: seq<Issue>)
    ensures out == issues + GroupsPass(le, ready, options)
  {
    var dgNames := UnionDeviceGroupNames(le, ready);
    var same := DeviceGroupSetsMatch(le, ready, dgNames);
    out := if same then issues else issues + [Issue(AsymmetricDeviceGroups, Ids(ready), None, None, None)];
    ghost var pass := GroupSetPass(le, ready);
    assert out == issues + pass;
    for i := 0 to |dgNames|
      invariant out == issues + pass + FlatMap(GroupPasses(le, ready, options), dgNames[..i])
    {
      FlatMapStep(GroupPasses(le, ready, options), dgNames, i);
      AppendAssociative(issues + pass, FlatMap(GroupPasses(le, ready, options), dgNames[..i]),
                        GroupPasses(le, ready, options)(dgNames[i]));
      out := ReportGroup(le, out, ready, dgNames[i], options);
    }
    assert dgNames[..|dgNames|] == dgNames;
    AppendAssociative(issues, pass, FlatMap(GroupPasses(le, ready, options), dgNames));
  }

  method CompareAluaCluster(le: Order, nodes: seq<Node>, options: Options) returns (c: Comparison)
    ensures c == Compare(le, nodes, options)
  {
    var ready := Ready(nodes);
    var issues := ReportPresence(nodes);
    if |ready| < 2 {
      assert issues + [] == issues;
      return Comparison(HealthUnknown, issues);
    }
    issues := ReportGroups(le, issues, ready, options);
    issues := CompareFingerprints(le, issues, ready);
    c := Comparison(HealthOf(issues), issues);
  }

  method CompareFingerprints(le: Order, issues: seq<Issue>, ready: seq<Node>) returns (out: seq<Issue>)
    ensures out == issues + FingerprintPass(le, ready, issues)
  {
    out := issues;
    var fps := Fingerprints(le, ready);
    if |fps| >= 2 && |Dedup(fps)| > 1 {
      var hasStructural := exists i :: i in issues && i.code in STRUCTURAL;
      if !hasStructural {
        out := out + [Issue(StateDivergence, Ids(ready), None, None, None)];
      }
    }
  }
}
