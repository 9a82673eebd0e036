/** Exactly when the ALUA checker says `ok`. */
module AluaExact {
  import opened Sequences
  import opened Collation
  import opened AluaModel
  import opened AluaCompare
  import opened AluaVerdict

  /** Device-group names are unique on the node, and so are target-group names in each device group.
      The sysfs reader collects both in maps. */
  ghost predicate UniqueNames(n: Node) {
    NoDup(GroupNames(n)) && forall dg: string :: NoDup(TgNames(n, dg))
  }

  /** No name is empty, as the sysfs reader makes them from non-empty path segments. Names may contain
      the separators of `join`. */
  ghost predicate NamesGiven(n: Node) {
    (forall x :: x in GroupNames(n) ==> x != "") && forall dg: string, x :: x in TgNames(n, dg) ==> x != ""
  }

  ghost predicate SameGroupNames(ready: seq<Node>) {
    forall n, m, dg :: n in ready && m in ready && dg in GroupNames(n) ==> dg in GroupNames(m)
  }

  ghost predicate SameTgNames(ready: seq<Node>) {
    forall n, m, dg: string, tg :: n in ready && m in ready && tg in TgNames(n, dg) ==> tg in TgNames(m, dg)
  }

  ghost predicate SameTgNamesIn(ready: seq<Node>, dg: string) {
    forall n, m, tg :: n in ready && m in ready && tg in TgNames(n, dg) ==> tg in TgNames(m, dg)
  }

  /** No node has a target group with a non-empty name in the device group. */
  ghost predicate BlankTgsIn(ready: seq<Node>, dg: string) {
    forall n, tg :: n in ready && tg in TgNames(n, dg) ==> tg == ""
  }

  /** The target groups agree as far as joining their names can tell. */
  ghost predicate TgNamesJoinAlike(ready: seq<Node>) {
    forall dg: string :: SameTgNamesIn(ready, dg) || BlankTgsIn(ready, dg)
  }

  ghost predicate BlankGroups(ready: seq<Node>) {
    forall n, dg :: n in ready && dg in GroupNames(n) ==> dg == ""
  }

  ghost predicate SameStates(ready: seq<Node>) {
    forall dg, tg :: !StatesDiffer(ready, dg, tg)
  }

  ghost predicate RolesClear(ready: seq<Node>) {
    forall n, g :: n in ready && g in n.deviceGroups ==> RolesPaired(g) || RolesAllUnknown(g)
  }

  ghost predicate RefsKnown(n: Node, known: set<string>) {
    forall g, tg, t :: g in n.deviceGroups && tg in g.targetGroups && t in tg.targets ==> t in known
  }

  /** Where the configuration of a node is known, it knows every target the node refers to. */
  ghost predicate RefsValid(ready: seq<Node>, options: Options) {
    options.conf.Some? ==>
      forall n :: n in ready && n.nodeId in options.conf.value ==> RefsKnown(n, options.conf.value[n.nodeId])
  }

  ghost predicate Configured(ready: seq<Node>) {
    forall n :: n in ready ==> n.deviceGroups != []
  }

  /** If both `local` and `remote` of the group carry ids on both nodes, the ids are swapped. */
  ghost predicate IdsReversedIn(a: Node, b: Node, dg: string) {
    var la, ra := FindTg(a, dg, "local"), FindTg(a, dg, "remote");
    var lb, rb := FindTg(b, dg, "local"), FindTg(b, dg, "remote");
    la.Some? && ra.Some? && lb.Some? && rb.Some?
    && la.value.groupId.Some? && ra.value.groupId.Some? && lb.value.groupId.Some? && rb.value.groupId.Some?
    ==> la.value.groupId == rb.value.groupId && ra.value.groupId == lb.value.groupId
  }

  ghost predicate IdsReversed(a: Node, b: Node) {
    forall dg: string :: IdsReversedIn(a, b, dg)
  }

  /** What `a` serves locally in the group is, with multiplicity, what `b` lists as remote. */
  ghost predicate TargetsCrossIn(a: Node, b: Node, dg: string) {
    var la, rb := FindTg(a, dg, "local"), FindTg(b, dg, "remote");
    la.Some? && rb.Some? && la.value.targets != [] && rb.value.targets != []
    ==> multiset(la.value.targets) == multiset(rb.value.targets)
  }

  ghost predicate TargetsCross(a: Node, b: Node) {
    forall dg: string :: TargetsCrossIn(a, b, dg)
  }

  /** The cluster is symmetric. No order of nodes, groups or targets enters. */
  ghost predicate Symmetric(ready: seq<Node>, options: Options) {
    SameTgNames(ready) && Aligned(ready, options)
  }

  /** The cluster is symmetric, except that a device group may have target groups with the empty name on
      some nodes and none at all on others. */
  ghost predicate Aligned(ready: seq<Node>, options: Options) {
    && |ready| >= 2
    && Configured(ready)
    && SameGroupNames(ready)
    && TgNamesJoinAlike(ready)
    && SameStates(ready)
    && (options.enabled ==> RolesClear(ready))
    && RefsValid(ready, options)
    && (|ready| == 2 && options.enabled ==> IdsReversed(ready[0], ready[1]))
    && (|ready| == 2 ==> TargetsCross(ready[0], ready[1]) && TargetsCross(ready[1], ready[0]))
  }

  // --- Names ----------------------------------------------------------------------------

  /** The part is the whole as far as joining can tell. */
  ghost predicate Covers(part: seq<string>, whole: seq<string>) {
    (forall x :: x in whole ==> x in part) || (part == [] && whole == [""])
  }

  ghost predicate SameNames(names: Node -> seq<string>, ready: seq<Node>) {
    forall n, m, x :: n in ready && m in ready && x in names(n) ==> x in names(m)
  }

  ghost predicate BlankNames(names: Node -> seq<string>, ready: seq<Node>) {
    forall n, x :: n in ready && x in names(n) ==> x == ""
  }

  lemma BlankCovered(part: seq<string>, whole: seq<string>)
    requires NoDup(whole) && forall x :: x in whole ==> x == ""
    requires forall x :: x in part ==> x in whole
    ensures Covers(part, whole)
  {
    forall i | 0 <= i < |whole| ensures whole[i] == "" {
      assert whole[i] in whole;
    }
    SingleValue(whole, "");
    NoDupMultiplicity(whole, "");
    assert |whole| == 1 ==> whole == [""];
    assert part != [] ==> part[0] in part;
  }

  /** Every node covers the union exactly when all have the same names, or none but the empty one. */
  lemma AllCoverExact(names: Node -> seq<string>, ready: seq<Node>, union: seq<string>)
    requires NoDup(union) && forall x :: x in union <==> exists n :: n in ready && x in names(n)
    ensures (forall n :: n in ready ==> Covers(names(n), union))
       <==> SameNames(names, ready) || BlankNames(names, ready)
  {
    if BlankNames(names, ready) {
      forall n | n in ready ensures Covers(names(n), union) {
        BlankCovered(names(n), union);
      }
    }
    if n, m, x :| n in ready && m in ready && x in names(n) && x !in names(m) && Covers(names(m), union) {
      assert x in union && union == [""];
      forall k, y | k in ready && y in names(k) ensures y == "" {
        assert y in union;
      }
    }
  }

  lemma UnionExact(names: Node -> seq<string>, ready: seq<Node>)
    ensures var union := Dedup(FlatMap(names, ready));
            NoDup(union) && forall x :: x in union <==> exists n :: n in ready && x in names(n)
  {
    forall x ensures x in FlatMap(names, ready) <==> exists n :: n in ready && x in names(n) {
      FlatMapMember(names, ready, x);
    }
  }

  lemma GroupPartExact(le: Order, ready: seq<Node>, n: Node)
    requires TotalOrder(le) && n in ready && UniqueNames(n)
    ensures GroupNamesAre(le, n, UnionGroupNames(le, ready))
       <==> Covers(NodeGroupNames()(n), Dedup(FlatMap(NodeGroupNames(), ready)))
  {
    UnionExact(NodeGroupNames(), ready);
    JoinedPart(le, GroupNames(n), Dedup(FlatMap(NodeGroupNames(), ready)));
  }

  /** The comparison of joined device-group names takes no groups for one with the empty name. */
  lemma GroupSetsExact(le: Order, ready: seq<Node>)
    requires TotalOrder(le) && forall n :: n in ready ==> UniqueNames(n)
    ensures GroupSetsMatch(le, ready, UnionGroupNames(le, ready)) <==> SameGroupNames(ready) || BlankGroups(ready)
  {
    var names := NodeGroupNames();
    UnionExact(names, ready);
    AllCoverExact(names, ready, Dedup(FlatMap(names, ready)));
    forall n | n in ready
      ensures GroupNamesAre(le, n, UnionGroupNames(le, ready)) <==> Covers(names(n), Dedup(FlatMap(names, ready)))
    {
      GroupPartExact(le, ready, n);
    }
    GroupNamesNamed(ready);
  }

  lemma GroupNamesNamed(ready: seq<Node>)
    ensures SameNames(NodeGroupNames(), ready) <==> SameGroupNames(ready)
    ensures BlankNames(NodeGroupNames(), ready) <==> BlankGroups(ready)
  {
    assert forall n: Node :: NodeGroupNames()(n) == GroupNames(n);
  }

  lemma TgPartExact(le: Order, ready: seq<Node>, dg: string, n: Node)
    requires TotalOrder(le) && n in ready && UniqueNames(n)
    ensures TgNamesAre(le, n, dg, UnionTgNames(le, ready, dg))
       <==> Covers(NodeTgNames(dg)(n), Dedup(FlatMap(NodeTgNames(dg), ready)))
  {
    UnionExact(NodeTgNames(dg), ready);
    JoinedPart(le, TgNames(n, dg), Dedup(FlatMap(NodeTgNames(dg), ready)));
  }

  /** The comparison of joined target-group names takes no groups for one with the empty name. */
  lemma TgSetsExact(le: Order, ready: seq<Node>, dg: string)
    requires TotalOrder(le) && forall n :: n in ready ==> UniqueNames(n)
    ensures TgSetsMatch(le, ready, dg, UnionTgNames(le, ready, dg))
       <==> SameTgNamesIn(ready, dg) || BlankTgsIn(ready, dg)
  {
    var names := NodeTgNames(dg);
    UnionExact(names, ready);
    AllCoverExact(names, ready, Dedup(FlatMap(names, ready)));
    forall n | n in ready
      ensures TgNamesAre(le, n, dg, UnionTgNames(le, ready, dg)) <==> Covers(names(n), Dedup(FlatMap(names, ready)))
    {
      TgPartExact(le, ready, dg, n);
    }
    TgNamesNamed(ready, dg);
  }

  lemma TgNamesNamed(ready: seq<Node>, dg: string)
    ensures SameNames(NodeTgNames(dg), ready) <==> SameTgNamesIn(ready, dg)
    ensures BlankNames(NodeTgNames(dg), ready) <==> BlankTgsIn(ready, dg)
  {
    assert forall n: Node :: NodeTgNames(dg)(n) == TgNames(n, dg);
  }

  /** With unique names, looking a group up by its name finds it. */
  lemma FindGroupUnique(n: Node, g: DeviceGroup)
    requires NoDup(GroupNames(n)) && g in n.deviceGroups
    ensures FindGroup(n, g.name) == Some(g)
  {
    var f := FindGroup(n, g.name).value;
    var i :| 0 <= i < |n.deviceGroups| && n.deviceGroups[i] == g;
    var j :| 0 <= j < |n.deviceGroups| && n.deviceGroups[j] == f;
    assert GroupNames(n)[i] == GroupNames(n)[j];
  }

  lemma FindTgUnique(n: Node, dg: string, t: TargetGroup)
    requires NoDup(TgNames(n, dg)) && t in TargetGroupsOf(n, dg)
    ensures FindTg(n, dg, t.name) == Some(t)
  {
    var tgs := TargetGroupsOf(n, dg);
    var f := FindTg(n, dg, t.name).value;
    var i :| 0 <= i < |tgs| && tgs[i] == t;
    var j :| 0 <= j < |tgs| && tgs[j] == f;
    assert TgNames(n, dg)[i] == TgNames(n, dg)[j];
  }

  /** A target group is looked up on a node only under a device group of the node. */
  lemma FindTgGroup(n: Node, dg: string, tg: string)
    requires FindTg(n, dg, tg).Some?
    ensures dg in GroupNames(n) && tg in TgNames(n, dg)
  {
    GroupNamesMember(n, dg);
    TgNamesMember(n, dg, tg);
  }

  // --- Fingerprints ---------------------------------------------------------------------

  type Key = (string, string, State)

  function KeyOf(): FlatGroup -> Key {
    (g: FlatGroup) => (g.deviceGroup, g.targetGroup, g.state)
  }

  function KeyText(): Key -> string {
    (k: Key) => k.0 + "/" + k.1 + ":" + StateText(k.2)
  }

  function Keys(groups: seq<DeviceGroup>): seq<Key> {
    Map(KeyOf(), Flatten(groups))
  }

  lemma FingerprintByKeys(le: Order, groups: seq<DeviceGroup>)
    ensures Fingerprint(le, groups) == Join(Sort(le, Map(KeyText(), Keys(groups))))
  {
    assert Map(RowText(), Flatten(groups)) == Map(KeyText(), Keys(groups));
  }

  lemma KeysStep(groups: seq<DeviceGroup>, g: DeviceGroup)
    ensures Keys(groups + [g]) == Keys(groups) + Map(KeyOf(), FlatRows()(g))
  {
    assert (groups + [g])[..|groups|] == groups;
    MapConcat(KeyOf(), Flatten(groups), FlatRows()(g));
  }

  lemma {:induction false} KeyNames(groups: seq<DeviceGroup>, k: Key)
    requires k in Keys(groups)
    ensures exists g, t :: g in groups && t in g.targetGroups && k == (g.name, t.name, t.state)
  {
    if groups == [] {
    } else {
      var init, last := groups[..|groups| - 1], groups[|groups| - 1];
      assert groups == init + [last];
      KeysStep(init, last);
      var rows := Map(KeyOf(), FlatRows()(last));
      if k in rows {
        var i :| 0 <= i < |rows| && rows[i] == k;
        assert last in groups && last.targetGroups[i] in last.targetGroups;
      } else {
        KeyNames(init, k);
      }
    }
  }

  lemma {:induction false} KeyOfGroup(groups: seq<DeviceGroup>, g: DeviceGroup, t: TargetGroup)
    requires g in groups && t in g.targetGroups
    ensures (g.name, t.name, t.state) in Keys(groups)
  {
    var init, last := groups[..|groups| - 1], groups[|groups| - 1];
    assert groups == init + [last];
    KeysStep(init, last);
    if g == last {
      var i :| 0 <= i < |g.targetGroups| && g.targetGroups[i] == t;
      assert Map(KeyOf(), FlatRows()(g))[i] == (g.name, t.name, t.state);
    } else {
      KeyOfGroup(init, g, t);
    }
  }

  lemma RowsNoDup(g: DeviceGroup)
    requires NoDup(Map(TargetGroupName(), g.targetGroups))
    ensures NoDup(Map(KeyOf(), FlatRows()(g)))
  {
    var rows := Map(KeyOf(), FlatRows()(g));
    assert forall i :: 0 <= i < |rows| ==> rows[i].1 == Map(TargetGroupName(), g.targetGroups)[i];
  }

  lemma KeysOfOthers(init: seq<DeviceGroup>, last: DeviceGroup, k: Key)
    requires forall g :: g in init ==> g.name != last.name
    requires k in Keys(init)
    ensures k !in Map(KeyOf(), FlatRows()(last))
  {
    KeyNames(init, k);
    assert forall r :: r in Map(KeyOf(), FlatRows()(last)) ==> r.0 == last.name;
  }

  lemma {:induction false} KeysNoDup(groups: seq<DeviceGroup>)
    requires NoDup(Map(GroupName(), groups))
    requires forall g :: g in groups ==> NoDup(Map(TargetGroupName(), g.targetGroups))
    ensures NoDup(Keys(groups))
  {
    if groups == [] {
    } else {
      var init, last := groups[..|groups| - 1], groups[|groups| - 1];
      assert groups == init + [last];
      assert last in groups && forall g :: g in init ==> g in groups;
      var names := Map(GroupName(), groups);
      assert Map(GroupName(), init) == names[..|groups| - 1];
      forall g | g in init ensures g.name != last.name {
        var i :| 0 <= i < |init| && init[i] == g;
        assert names[i] != names[|groups| - 1];
      }
      KeysNoDup(init);
      RowsNoDup(last);
      KeysStep(init, last);
      forall k | k in Keys(init) ensures k !in Map(KeyOf(), FlatRows()(last)) {
        KeysOfOthers(init, last, k);
      }
      NoDupAppend(Keys(init), Map(KeyOf(), FlatRows()(last)));
    }
  }

  lemma KeysMember(n: Node, k: Key)
    requires UniqueNames(n)
    ensures k in Keys(n.deviceGroups) <==> HasState(n, k.0, k.1, k.2)
  {
    if k in Keys(n.deviceGroups) {
      KeyNames(n.deviceGroups, k);
      var g, t :| g in n.deviceGroups && t in g.targetGroups && k == (g.name, t.name, t.state);
      FindGroupUnique(n, g);
      FindTgUnique(n, g.name, t);
    }
    if HasState(n, k.0, k.1, k.2) {
      KeyOfGroup(n.deviceGroups, FindGroup(n, k.0).value, FindTg(n, k.0, k.1).value);
    }
  }

  lemma GroupsUnique(n: Node)
    requires UniqueNames(n)
    ensures forall g :: g in n.deviceGroups ==> NoDup(Map(TargetGroupName(), g.targetGroups))
  {
    forall g | g in n.deviceGroups ensures NoDup(Map(TargetGroupName(), g.targetGroups)) {
      FindGroupUnique(n, g);
      assert NoDup(TgNames(n, g.name));
    }
  }

  lemma FingerprintsAgree(le: Order, ready: seq<Node>, n: Node, m: Node)
    requires TotalOrder(le) && n in ready && m in ready
    requires UniqueNames(n) && UniqueNames(m)
    requires SameTgNames(ready) && SameStates(ready)
    ensures Fingerprint(le, n.deviceGroups) == Fingerprint(le, m.deviceGroups)
  {
    var a, b := Keys(n.deviceGroups), Keys(m.deviceGroups);
    GroupsUnique(n);
    GroupsUnique(m);
    KeysNoDup(n.deviceGroups);
    KeysNoDup(m.deviceGroups);
    forall k ensures k in a <==> k in b {
      KeysMember(n, k);
      KeysMember(m, k);
      TgNamesMember(n, k.0, k.1);
      TgNamesMember(m, k.0, k.1);
      assert !StatesDiffer(ready, k.0, k.1);
    }
    NoDupSameElements(a, b);
    MapPermutation(KeyText(), a, b);
    SortCanonical(le, Map(KeyText(), a), Map(KeyText(), b));
    FingerprintByKeys(le, n.deviceGroups);
    FingerprintByKeys(le, m.deviceGroups);
  }

  // --- The verdict ----------------------------------------------------------------------

  lemma RolesExact(ready: seq<Node>)
    requires forall n :: n in ready ==> UniqueNames(n)
    ensures (exists n, dg :: n in ready && PairBroken(n, dg, false)) <==> !RolesClear(ready)
  {
    if !RolesClear(ready) {
      var n, g :| n in ready && g in n.deviceGroups && !RolesPaired(g) && !RolesAllUnknown(g);
      FindGroupUnique(n, g);
      assert PairBroken(n, g.name, false);
    }
  }

  lemma RefsExact(n: Node, conf: map<string, set<string>>)
    requires UniqueNames(n)
    ensures (exists dg :: BadRef(n, dg, conf)) <==> n.nodeId in conf && !RefsKnown(n, conf[n.nodeId])
  {
    if n.nodeId in conf && !RefsKnown(n, conf[n.nodeId]) {
      var g, tg, t :| g in n.deviceGroups && tg in g.targetGroups && t in tg.targets && t !in conf[n.nodeId];
      FindGroupUnique(n, g);
      assert tg in TargetGroupsOf(n, g.name);
      assert BadRef(n, g.name, conf);
    }
    if dg :| BadRef(n, dg, conf) {
      var tg, t :| tg in TargetGroupsOf(n, dg) && t in tg.targets && t !in conf[n.nodeId];
      assert FindGroup(n, dg).value in n.deviceGroups;
    }
  }

  lemma IdsIn(a: Node, b: Node, dg: string)
    ensures IdsNotReversed(a, b, dg) <==> !IdsReversedIn(a, b, dg)
  {
  }

  lemma IdsExact(a: Node, b: Node)
    ensures (exists dg :: IdsNotReversed(a, b, dg)) <==> !IdsReversed(a, b)
  {
    if dg :| IdsNotReversed(a, b, dg) {
      IdsIn(a, b, dg);
    }
    if dg: string :| !IdsReversedIn(a, b, dg) {
      IdsIn(a, b, dg);
    }
  }

  lemma SortSameExact(le: Order, a: seq<string>, b: seq<string>)
    requires TotalOrder(le)
    ensures Sort(le, a) == Sort(le, b) <==> multiset(a) == multiset(b)
  {
    if multiset(a) == multiset(b) {
      SortCanonical(le, a, b);
    }
  }

  lemma AssignmentIn(le: Order, a: Node, b: Node, dg: string)
    requires TotalOrder(le)
    ensures AssignmentDiffers(le, a, b, dg) <==> !TargetsCrossIn(a, b, dg)
  {
    var la, rb := FindTg(a, dg, "local"), FindTg(b, dg, "remote");
    if la.Some? && rb.Some? {
      SortSameExact(le, la.value.targets, rb.value.targets);
    }
  }

  lemma AssignmentExact(le: Order, a: Node, b: Node)
    requires TotalOrder(le)
    ensures (exists dg :: AssignmentDiffers(le, a, b, dg)) <==> !TargetsCross(a, b)
  {
    if dg :| AssignmentDiffers(le, a, b, dg) {
      AssignmentIn(le, a, b, dg);
    }
    if dg: string :| !TargetsCrossIn(a, b, dg) {
      AssignmentIn(le, a, b, dg);
    }
  }

  /** What must hold of the ready nodes for code `c` not to be raised about any device group. */
  ghost predicate Avoids(ready: seq<Node>, options: Options, c: Code) {
    match c
    case AsymmetricTargetGroups => TgNamesJoinAlike(ready)
    case StateDivergence => SameStates(ready)
    case MissingLocalRemotePair => options.enabled ==> RolesClear(ready)
    case InvalidTargetReference => RefsValid(ready, options)
    case GroupIdNotReversed => options.enabled && |ready| == 2 ==> IdsReversed(ready[0], ready[1])
    case TargetAssignmentMismatch =>
      |ready| == 2 ==> TargetsCross(ready[0], ready[1]) && TargetsCross(ready[1], ready[0])
    case _ => true
  }

  /** A code is raised only about device groups that some ready node has. */
  lemma RaisedOnlyOnKnown(le: Order, ready: seq<Node>, options: Options, dg: string, c: Code)
    requires Raised(le, ready, options, dg, c) && c != AsymmetricTargetGroups
    ensures dg in UnionGroupNames(le, ready)
  {
    UnionGroupNamesMember(le, ready, dg);
    match c
    case StateDivergence =>
      var tg :| tg in UnionTgNames(le, ready, dg) && StatesDiffer(ready, dg, tg);
      var n :| n in ready && FindTg(n, dg, tg).Some?;
      FindTgGroup(n, dg, tg);
    case MissingLocalRemotePair =>
      var n :| n in ready && PairBroken(n, dg, false);
      GroupNamesMember(n, dg);
    case ManualReview =>
      var n :| n in ready && PairBroken(n, dg, true);
      GroupNamesMember(n, dg);
    case GroupIdNotReversed =>
      FindTgGroup(ready[0], dg, "local");
    case TargetAssignmentMismatch =>
      if AssignmentDiffers(le, ready[0], ready[1], dg) {
        FindTgGroup(ready[0], dg, "local");
      } else {
        FindTgGroup(ready[1], dg, "local");
      }
    case InvalidTargetReference =>
      var n :| n in ready && BadRef(n, dg, options.conf.value);
      GroupNamesMember(n, dg);
    case _ =>
  }

  lemma StatesExact(le: Order, ready: seq<Node>, options: Options)
    ensures RaisedSomewhere(le, ready, options, StateDivergence) <==> !SameStates(ready)
  {
    if !SameStates(ready) {
      var dg, tg :| StatesDiffer(ready, dg, tg);
      var n :| n in ready && FindTg(n, dg, tg).Some?;
      FindTgGroup(n, dg, tg);
      UnionTgNamesMember(le, ready, dg, tg);
      assert Raised(le, ready, options, dg, StateDivergence);
      RaisedOnlyOnKnown(le, ready, options, dg, StateDivergence);
    }
  }

  lemma TgNamesExact(le: Order, ready: seq<Node>, options: Options)
    requires TotalOrder(le) && forall n :: n in ready ==> UniqueNames(n)
    ensures RaisedSomewhere(le, ready, options, AsymmetricTargetGroups) <==> !TgNamesJoinAlike(ready)
  {
    if RaisedSomewhere(le, ready, options, AsymmetricTargetGroups) {
      var dg :| dg in UnionGroupNames(le, ready) && Raised(le, ready, options, dg, AsymmetricTargetGroups);
      TgSetsExact(le, ready, dg);
    }
    if dg: string :| !SameTgNamesIn(ready, dg) && !BlankTgsIn(ready, dg) {
      var n, m, tg :| n in ready && m in ready && tg in TgNames(n, dg) && tg !in TgNames(m, dg);
      TgSetsExact(le, ready, dg);
      TgNamesMember(n, dg, tg);
      FindTgGroup(n, dg, tg);
      UnionGroupNamesMember(le, ready, dg);
      assert Raised(le, ready, options, dg, AsymmetricTargetGroups);
    }
  }

  lemma BadRefRaised(le: Order, ready: seq<Node>, options: Options, n: Node, dg: string)
    requires options.conf.Some? && n in ready && BadRef(n, dg, options.conf.value)
    ensures Raised(le, ready, options, dg, InvalidTargetReference)
  {
    assert SomeBadRef(ready, dg, options.conf.value);
  }

  lemma RefsRaisedExact(le: Order, ready: seq<Node>, options: Options)
    requires forall n :: n in ready ==> UniqueNames(n)
    ensures RaisedSomewhere(le, ready, options, InvalidTargetReference)
       <==> !Avoids(ready, options, InvalidTargetReference)
  {
    RaisedAnyGroup(le, ready, options, InvalidTargetReference);
    if options.conf.Some? {
      var conf := options.conf.value;
      if dg :| Raised(le, ready, options, dg, InvalidTargetReference) {
        var n :| n in ready && BadRef(n, dg, conf);
        RefsExact(n, conf);
      }
      if n :| n in ready && n.nodeId in conf && !RefsKnown(n, conf[n.nodeId]) {
        RefsExact(n, conf);
        var dg :| BadRef(n, dg, conf);
        BadRefRaised(le, ready, options, n, dg);
      }
    }
  }

  lemma RolesRaisedExact(le: Order, ready: seq<Node>, options: Options)
    requires forall n :: n in ready ==> UniqueNames(n)
    ensures RaisedSomewhere(le, ready, options, MissingLocalRemotePair)
       <==> !Avoids(ready, options, MissingLocalRemotePair)
  {
    RaisedAnyGroup(le, ready, options, MissingLocalRemotePair);
    RolesExact(ready);
    if options.enabled && !RolesClear(ready) {
      var n, dg :| n in ready && PairBroken(n, dg, false);
      assert Raised(le, ready, options, dg, MissingLocalRemotePair);
    }
  }

  lemma SomeIdsExact(ready: seq<Node>)
    requires |ready| == 2
    ensures (exists dg :: SomeIdsNotReversed(ready, dg)) <==> !IdsReversed(ready[0], ready[1])
  {
    IdsExact(ready[0], ready[1]);
    if dg :| IdsNotReversed(ready[0], ready[1], dg) {
      assert SomeIdsNotReversed(ready, dg);
    }
  }

  lemma IdsRaisedExact(le: Order, ready: seq<Node>, options: Options)
    ensures RaisedSomewhere(le, ready, options, GroupIdNotReversed) <==> !Avoids(ready, options, GroupIdNotReversed)
  {
    var c := GroupIdNotReversed;
    RaisedAnyGroup(le, ready, options, c);
    forall dg ensures Raised(le, ready, options, dg, c) <==> options.enabled && SomeIdsNotReversed(ready, dg) {
    }
    if |ready| == 2 {
      SomeIdsExact(ready);
    }
  }

  lemma SomeAssignmentExact(le: Order, ready: seq<Node>)
    requires TotalOrder(le) && |ready| == 2
    ensures (exists dg :: SomeAssignmentDiffers(le, ready, dg))
       <==> !(TargetsCross(ready[0], ready[1]) && TargetsCross(ready[1], ready[0]))
  {
    var a, b := ready[0], ready[1];
    AssignmentExact(le, a, b);
    AssignmentExact(le, b, a);
    if dg :| AssignmentDiffers(le, a, b, dg) || AssignmentDiffers(le, b, a, dg) {
      assert SomeAssignmentDiffers(le, ready, dg);
    }
  }

  lemma AssignRaised(le: Order, ready: seq<Node>, options: Options, dg: string)
    ensures Raised(le, ready, options, dg, TargetAssignmentMismatch) <==> SomeAssignmentDiffers(le, ready, dg)
  {
  }

  lemma SomeAssignRaised(le: Order, ready: seq<Node>, options: Options)
    ensures RaisedSomewhere(le, ready, options, TargetAssignmentMismatch)
       <==> exists dg :: SomeAssignmentDiffers(le, ready, dg)
  {
    RaisedAnyGroup(le, ready, options, TargetAssignmentMismatch);
    forall dg
      ensures Raised(le, ready, options, dg, TargetAssignmentMismatch) <==> SomeAssignmentDiffers(le, ready, dg)
    {
      AssignRaised(le, ready, options, dg);
    }
  }

  lemma AssignRaisedExact(le: Order, ready: seq<Node>, options: Options)
    requires TotalOrder(le)
    ensures RaisedSomewhere(le, ready, options, TargetAssignmentMismatch)
       <==> !Avoids(ready, options, TargetAssignmentMismatch)
  {
    SomeAssignRaised(le, ready, options);
    if |ready| == 2 {
      SomeAssignmentExact(le, ready);
    }
  }

  lemma RaisedExact(le: Order, ready: seq<Node>, options: Options, c: Code)
    requires TotalOrder(le) && forall n :: n in ready ==> UniqueNames(n)
    requires c != ManualReview
    ensures RaisedSomewhere(le, ready, options, c) <==> !Avoids(ready, options, c)
  {
    match c
    case AsymmetricTargetGroups => TgNamesExact(le, ready, options);
    case StateDivergence => StatesExact(le, ready, options);
    case InvalidTargetReference => RefsRaisedExact(le, ready, options);
    case MissingLocalRemotePair => RolesRaisedExact(le, ready, options);
    case GroupIdNotReversed => IdsRaisedExact(le, ready, options);
    case TargetAssignmentMismatch => AssignRaisedExact(le, ready, options);
    case _ => RaisedAnyGroup(le, ready, options, c);
  }

  lemma RaisedAnyGroup(le: Order, ready: seq<Node>, options: Options, c: Code)
    requires c != AsymmetricTargetGroups
    ensures RaisedSomewhere(le, ready, options, c) <==> exists dg :: Raised(le, ready, options, dg, c)
  {
    if dg :| Raised(le, ready, options, dg, c) {
      RaisedOnlyOnKnown(le, ready, options, dg, c);
    }
  }

  /** The codes that keep the verdict from being `ok`. */
  predicate Spoils(c: Code) {
    c != NodeUnreachable && c != ManualReview
  }

  /** What must hold of the ready nodes for code `c` not to be raised at all. */
  ghost predicate Averts(ready: seq<Node>, options: Options, c: Code) {
    if c == MissingAluaConfig then Configured(ready)
    else if c == AsymmetricDeviceGroups then SameGroupNames(ready) || BlankGroups(ready)
    else Avoids(ready, options, c)
  }

  lemma CodeExact(le: Order, nodes: seq<Node>, options: Options, c: Code)
    requires TotalOrder(le) && |Ready(nodes)| >= 2 && Spoils(c)
    requires forall n :: n in Ready(nodes) ==> UniqueNames(n)
    ensures c !in Codes(NodeIssues(le, nodes, options)) <==> Averts(Ready(nodes), options, c)
  {
    NodeCodes(le, nodes, options, c);
    if c == AsymmetricDeviceGroups {
      GroupSetsExact(le, Ready(nodes));
    } else if c != MissingAluaConfig {
      RaisedExact(le, Ready(nodes), options, c);
    }
  }

  lemma CleanExact(le: Order, nodes: seq<Node>, options: Options)
    requires TotalOrder(le) && |Ready(nodes)| >= 2
    requires forall n :: n in Ready(nodes) ==> UniqueNames(n)
    ensures Judge(Codes(NodeIssues(le, nodes, options))) == HealthOk <==> Aligned(Ready(nodes), options)
  {
    var ready, codes := Ready(nodes), Codes(NodeIssues(le, nodes, options));
    JudgeOk(codes);
    forall c | Spoils(c) ensures c !in codes <==> Averts(ready, options, c) {
      CodeExact(le, nodes, options, c);
    }
    AlignedByCodes(ready, options);
  }

  lemma JudgeOk(codes: set<Code>)
    ensures Judge(codes) == HealthOk <==> forall c :: Spoils(c) ==> c !in codes
  {
  }

  lemma AlignedAverts(ready: seq<Node>, options: Options, c: Code)
    requires Aligned(ready, options)
    ensures Averts(ready, options, c)
  {
    match c
    case MissingAluaConfig =>
    case AsymmetricDeviceGroups =>
    case AsymmetricTargetGroups =>
    case GroupIdNotReversed =>
    case TargetAssignmentMismatch =>
    case InvalidTargetReference =>
    case _ =>
  }

  lemma AlignedByCodes(ready: seq<Node>, options: Options)
    requires |ready| >= 2
    ensures Aligned(ready, options) <==> forall c :: Spoils(c) ==> Averts(ready, options, c)
  {
    if Aligned(ready, options) {
      forall c | Spoils(c) ensures Averts(ready, options, c) {
        AlignedAverts(ready, options, c);
      }
    }
    if forall c :: Spoils(c) ==> Averts(ready, options, c) {
      assert Spoils(MissingAluaConfig) && Spoils(AsymmetricDeviceGroups) && Spoils(AsymmetricTargetGroups);
      assert Spoils(StateDivergence) && Spoils(MissingLocalRemotePair) && Spoils(InvalidTargetReference);
      assert Spoils(GroupIdNotReversed) && Spoils(TargetAssignmentMismatch);
      AvertedNames(ready, options);
      AvertedTgNames(ready, options);
      AvertedStates(ready, options);
      AvertedRoles(ready, options);
      AvertedRefs(ready, options);
      AvertedIds(ready, options);
      AvertedTargets(ready, options);
    }
  }

  /** Nodes that all have a device group, all of them with the empty name, have the same ones. */
  lemma BlankGroupsSame(ready: seq<Node>)
    requires Configured(ready) && BlankGroups(ready)
    ensures SameGroupNames(ready)
  {
    forall n | n in ready ensures "" in GroupNames(n) {
      assert GroupNames(n)[0] in GroupNames(n);
    }
  }

  lemma AvertedNames(ready: seq<Node>, options: Options)
    requires Averts(ready, options, MissingAluaConfig) && Averts(ready, options, AsymmetricDeviceGroups)
    ensures Configured(ready) && SameGroupNames(ready)
  {
    if BlankGroups(ready) {
      BlankGroupsSame(ready);
    }
  }

  lemma AvertedTgNames(ready: seq<Node>, options: Options)
    requires Averts(ready, options, AsymmetricTargetGroups)
    ensures TgNamesJoinAlike(ready)
  {
  }

  lemma AvertedStates(ready: seq<Node>, options: Options)
    requires Averts(ready, options, StateDivergence)
    ensures SameStates(ready)
  {
    assert Avoids(ready, options, StateDivergence);
  }

  lemma AvertedRoles(ready: seq<Node>, options: Options)
    requires Averts(ready, options, MissingLocalRemotePair)
    ensures options.enabled ==> RolesClear(ready)
  {
  }

  lemma AvertedRefs(ready: seq<Node>, options: Options)
    requires Averts(ready, options, InvalidTargetReference)
    ensures RefsValid(ready, options)
  {
  }

  lemma AvertedIds(ready: seq<Node>, options: Options)
    requires Averts(ready, options, GroupIdNotReversed)
    ensures |ready| == 2 && options.enabled ==> IdsReversed(ready[0], ready[1])
  {
    assert Avoids(ready, options, GroupIdNotReversed);
  }

  lemma AvertedTargets(ready: seq<Node>, options: Options)
    requires Averts(ready, options, TargetAssignmentMismatch)
    ensures |ready| == 2 ==> TargetsCross(ready[0], ready[1]) && TargetsCross(ready[1], ready[0])
  {
    assert Avoids(ready, options, TargetAssignmentMismatch);
  }

  lemma SymmetricFingerprints(le: Order, ready: seq<Node>)
    requires TotalOrder(le) && SameTgNames(ready) && SameStates(ready)
    requires forall n :: n in ready ==> UniqueNames(n)
    ensures !FingerprintsDiffer(le, ready)
  {
    forall n, m | n in ready && m in ready
      ensures Fingerprint(le, n.deviceGroups) == Fingerprint(le, m.deviceGroups)
    {
      FingerprintsAgree(le, ready, n, m);
    }
  }

  /** A divergence added to a report spoils the verdict if nothing did before, else it changes nothing. */
  lemma JudgeWithDivergence(codes: set<Code>, extra: set<Code>)
    requires extra <= {StateDivergence}
    ensures Judge(codes + extra) == HealthOk <==> Judge(codes) == HealthOk && extra == {}
    ensures Judge(codes) != HealthOk ==> Judge(codes + extra) == Judge(codes)
    ensures Judge(codes) == HealthOk ==> codes !! STRUCTURAL
  {
    if extra != {} {
      assert extra == {StateDivergence};
    } else {
      assert codes + extra == codes;
    }
  }

  /** For unique names, empty ones included, the verdict is `ok` exactly when the ready nodes are aligned
      and no two of them have different non-empty fingerprints. */
  lemma VerdictUnique(le: Order, nodes: seq<Node>, options: Options)
    requires TotalOrder(le)
    requires forall n :: n in Ready(nodes) ==> UniqueNames(n)
    ensures Compare(le, nodes, options).health == HealthOk
       <==> Aligned(Ready(nodes), options) && !FingerprintsDiffer(le, Ready(nodes))
  {
    if |Ready(nodes)| >= 2 {
      var codes := Codes(NodeIssues(le, nodes, options));
      CleanExact(le, nodes, options);
      ReportCodes(le, nodes, options);
      JudgeWithDivergence(
        codes, if FingerprintsDiffer(le, Ready(nodes)) && codes !! STRUCTURAL then {StateDivergence} else {});
    }
  }

  /** Where every name is given, joining hides nothing. */
  lemma GivenNamesSame(ready: seq<Node>)
    requires forall n :: n in ready ==> NamesGiven(n)
    ensures TgNamesJoinAlike(ready) <==> SameTgNames(ready)
  {
    if TgNamesJoinAlike(ready) {
      forall n, m, dg: string, tg | n in ready && m in ready && tg in TgNames(n, dg) ensures tg in TgNames(m, dg) {
        assert SameTgNamesIn(ready, dg) || BlankTgsIn(ready, dg);
      }
    }
    if SameTgNames(ready) {
      forall dg: string ensures SameTgNamesIn(ready, dg) {
      }
    }
  }

  /** With two ready nodes the fingerprint pass never changes the verdict, if every name is given. */
  lemma FingerprintPassNeutral(le: Order, nodes: seq<Node>, options: Options)
    requires TotalOrder(le) && |Ready(nodes)| >= 2
    requires forall n :: n in Ready(nodes) ==> UniqueNames(n) && NamesGiven(n)
    ensures Compare(le, nodes, options).health == HealthOf(NodeIssues(le, nodes, options))
  {
    var ready, codes := Ready(nodes), Codes(NodeIssues(le, nodes, options));
    HealthByCodes(NodeIssues(le, nodes, options));
    CleanExact(le, nodes, options);
    GivenNamesSame(ready);
    if Aligned(ready, options) {
      SymmetricFingerprints(le, ready);
    }
    ReportCodes(le, nodes, options);
    JudgeWithDivergence(codes, if FingerprintsDiffer(le, ready) && codes !! STRUCTURAL then {StateDivergence} else {});
  }

  /** For the names the sysfs reader yields, the verdict is `ok` exactly when the ready nodes are symmetric. */
  lemma VerdictExact(le: Order, nodes: seq<Node>, options: Options)
    requires TotalOrder(le)
    requires forall n :: n in Ready(nodes) ==> UniqueNames(n) && NamesGiven(n)
    ensures Compare(le, nodes, options).health == HealthOk <==> Symmetric(Ready(nodes), options)
  {
    VerdictUnique(le, nodes, options);
    GivenNamesSame(Ready(nodes));
    if Symmetric(Ready(nodes), options) {
      SymmetricFingerprints(le, Ready(nodes));
    }
  }
}
