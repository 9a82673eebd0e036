/** What joining names cannot see. The sysfs reader never yields an empty name, so this does not happen to
    snapshots it has read. */
module AluaEmptyName {
  import opened Sequences
  import opened Collation
  import opened AluaModel
  import opened AluaCompare
  import opened AluaVerdict
  import opened AluaExact

  /** Two nodes with the one device group `g`; only `a` has a target group in it, with the
      empty name and no role. */
  ghost predicate OneSided(a: Node, b: Node, ga: DeviceGroup, gb: DeviceGroup) {
    && a.sshReady && b.sshReady
    && a.deviceGroups == [ga] && b.deviceGroups == [gb] && ga.name == gb.name
    && |ga.targetGroups| == 1 && ga.targetGroups[0].name == "" && ga.targetGroups[0].role == RoleUnknown
    && gb.targetGroups == []
  }

  lemma OnlyGroupNames(n: Node, g: DeviceGroup)
    requires n.deviceGroups == [g]
    ensures GroupNames(n) == [g.name]
    ensures forall dg: string :: TargetGroupsOf(n, dg) == if dg == g.name then g.targetGroups else []
  {
    assert GroupNames(n)[0] == g.name;
    forall dg: string ensures TargetGroupsOf(n, dg) == if dg == g.name then g.targetGroups else [] {
      FindGroupUnique(n, g);
      assert dg != g.name ==> FindGroup(n, dg).None?;
    }
  }

  lemma OneSidedNames(a: Node, b: Node, ga: DeviceGroup, gb: DeviceGroup)
    requires OneSided(a, b, ga, gb)
    ensures GroupNames(a) == GroupNames(b) == [ga.name]
    ensures forall dg: string :: TgNames(a, dg) == if dg == ga.name then [""] else []
    ensures forall dg: string :: TgNames(b, dg) == []
    ensures forall dg, tg :: FindTg(b, dg, tg).None?
    ensures forall dg, tg :: FindTg(a, dg, tg).Some? ==> tg == ""
  {
    OnlyGroupNames(a, ga);
    OnlyGroupNames(b, gb);
    forall dg: string ensures TgNames(a, dg) == if dg == ga.name then [""] else [] {
      assert dg == ga.name ==> TgNames(a, dg)[0] == "";
    }
  }

  lemma EmptyFingerprint(le: Order, g: DeviceGroup)
    requires g.targetGroups == []
    ensures Fingerprint(le, [g]) == ""
  {
    assert [g][..0] == [] && [g][..1] == [g];
    FlatMapStep(FlatRows(), [g], 0);
    assert Flatten([g]) == [];
  }

  lemma OneSidedNamesAlike(ready: seq<Node>, a: Node, b: Node, ga: DeviceGroup, gb: DeviceGroup)
    requires ready == [a, b] && OneSided(a, b, ga, gb)
    ensures SameGroupNames(ready) && TgNamesJoinAlike(ready) && forall n :: n in ready ==> UniqueNames(n)
  {
    OneSidedNames(a, b, ga, gb);
    assert forall n :: n in ready <==> n == a || n == b;
    forall dg: string ensures BlankTgsIn(ready, dg) {
    }
  }

  lemma OneSidedTargets(a: Node, b: Node, ga: DeviceGroup, gb: DeviceGroup)
    requires OneSided(a, b, ga, gb)
    ensures IdsReversed(a, b) && TargetsCross(a, b) && TargetsCross(b, a)
  {
    OneSidedNames(a, b, ga, gb);
    forall dg: string ensures IdsReversedIn(a, b, dg) && TargetsCrossIn(a, b, dg) && TargetsCrossIn(b, a, dg) {
      assert FindTg(b, dg, "local").None? && FindTg(b, dg, "remote").None?;
    }
  }

  lemma OneSidedStates(ready: seq<Node>, a: Node, b: Node, ga: DeviceGroup, gb: DeviceGroup)
    requires ready == [a, b] && OneSided(a, b, ga, gb)
    ensures SameStates(ready)
  {
    OneSidedNames(a, b, ga, gb);
    assert forall n :: n in ready <==> n == a || n == b;
  }

  lemma OneSidedAligned(ready: seq<Node>, a: Node, b: Node, ga: DeviceGroup, gb: DeviceGroup)
    requires ready == [a, b] && OneSided(a, b, ga, gb)
    ensures Aligned(ready, Options(true, None))
  {
    OneSidedNamesAlike(ready, a, b, ga, gb);
    OneSidedTargets(a, b, ga, gb);
    OneSidedStates(ready, a, b, ga, gb);
    assert RolesClear(ready);
  }

  lemma NoTwoFingerprints(le: Order, ready: seq<Node>, a: Node, b: Node)
    requires ready == [a, b] && Fingerprint(le, b.deviceGroups) == ""
    ensures !FingerprintsDiffer(le, ready)
  {
    assert forall n :: n in ready <==> n == a || n == b;
  }

  /** The verdict on such nodes is `ok`, although their target groups differ. */
  lemma EmptyNameEscapes(le: Order, nodes: seq<Node>, a: Node, b: Node, ga: DeviceGroup, gb: DeviceGroup)
    requires TotalOrder(le) && nodes == [a, b] && OneSided(a, b, ga, gb)
    ensures Compare(le, nodes, Options(true, None)).health == HealthOk
    ensures !SameTgNames(Ready(nodes))
  {
    FilterAll(ReadyNode(), nodes);
    OneSidedAligned(nodes, a, b, ga, gb);
    OneSidedNamesAlike(nodes, a, b, ga, gb);
    EmptyFingerprint(le, gb);
    NoTwoFingerprints(le, nodes, a, b);
    VerdictUnique(le, nodes, Options(true, None));
    OneSidedDiffer(nodes, a, b, ga, gb);
  }

  lemma OneSidedDiffer(nodes: seq<Node>, a: Node, b: Node, ga: DeviceGroup, gb: DeviceGroup)
    requires nodes == [a, b] && OneSided(a, b, ga, gb)
    ensures !SameTgNames(nodes)
  {
    OneSidedNames(a, b, ga, gb);
    assert a in nodes && b in nodes && "" in TgNames(a, ga.name) && "" !in TgNames(b, ga.name);
  }
}
