/** ALUA device groups as read from a node (`types/alua.ts`, `server/utils/alua-model.ts`). */
module AluaModel {
  import opened Sequences
  import opened Collation

  datatype State = Active | Nonoptimized | Standby | Unavailable | StateUnknown
  datatype Role = Local | Remote | RoleUnknown

  datatype TargetGroup = TargetGroup(
    name: string, groupId: Option<int>, state: State, role: Role, targets: seq<string>)

  datatype DeviceGroup = DeviceGroup(name: string, devices: seq<string>, targetGroups: seq<TargetGroup>)

  datatype Node = Node(nodeId: string, hostname: string, sshReady: bool, deviceGroups: seq<DeviceGroup>)

  /** One row of the flattened view. */
  datatype FlatGroup = FlatGroup(
    deviceGroup: string, targetGroup: string, groupId: int, state: State, targets: seq<string>)

  function FlatRow(dg: string): TargetGroup -> FlatGroup {
    (tg: TargetGroup) =>
      FlatGroup(dg, tg.name, if tg.groupId.Some? then tg.groupId.value else 0, tg.state, tg.targets)
  }

  function FlatRows(): DeviceGroup -> seq<FlatGroup> {
    (dg: DeviceGroup) => Map(FlatRow(dg.name), dg.targetGroups)
  }

  function Flatten(groups: seq<DeviceGroup>): (r: seq<FlatGroup>) {
    FlatMap(FlatRows(), groups)
  }

  /** The nested loops of `flattenAluaGroups`. */
  method FlattenAluaGroups(groups: seq<DeviceGroup>) returns (flat: seq<FlatGroup>)
    ensures flat == Flatten(groups)
  {
    flat := [];
    for i := 0 to |groups|
      invariant flat == FlatMap(FlatRows(), groups[..i])
    {
      var dg := groups[i];
      ghost var before := flat;
      for j := 0 to |dg.targetGroups|
        invariant flat == before + Map(FlatRow(dg.name), dg.targetGroups[..j])
      {
        var tg := dg.targetGroups[j];
        var groupId := if tg.groupId.Some? then tg.groupId.value else 0;
        flat := flat + [FlatGroup(dg.name, tg.name, groupId, tg.state, tg.targets)];
        assert dg.targetGroups[..j + 1][..j] == dg.targetGroups[..j];
      }
      assert dg.targetGroups[..|dg.targetGroups|] == dg.targetGroups;
      FlatMapStep(FlatRows(), groups, i);
    }
    assert groups[..|groups|] == groups;
  }

  function StateText(s: State): string {
    match s
    case Active => "active"
    case Nonoptimized => "nonoptimized"
    case Standby => "standby"
    case Unavailable => "unavailable"
    case StateUnknown => "unknown"
  }

  function RowText(): FlatGroup -> string {
    (g: FlatGroup) => g.deviceGroup + "/" + g.targetGroup + ":" + StateText(g.state)
  }

  /** `aluaFingerprintFromDeviceGroups`. */
  function Fingerprint(le: (string, string) -> bool, groups: seq<DeviceGroup>): string {
    Join(Sort(le, Map(RowText(), Flatten(groups))))
  }

  // --- Lookups by name ------------------------------------------------------------------

  function GroupNamed(name: string): DeviceGroup -> bool {
    (g: DeviceGroup) => g.name == name
  }

  function TargetGroupNamed(name: string): TargetGroup -> bool {
    (t: TargetGroup) => t.name == name
  }

  function FindGroup(n: Node, dg: string): (r: Option<DeviceGroup>)
    ensures r.Some? ==> r.value in n.deviceGroups && r.value.name == dg
    ensures r.None? ==> forall g :: g in n.deviceGroups ==> g.name != dg
  {
    var r := Find(GroupNamed(dg), n.deviceGroups);
    assert forall g :: g in n.deviceGroups ==> (GroupNamed(dg)(g) <==> g.name == dg);
    r
  }

  /** The target groups of the named device group, none when it is absent. */
  function TargetGroupsOf(n: Node, dg: string): seq<TargetGroup> {
    match FindGroup(n, dg)
    case None => []
    case Some(g) => g.targetGroups
  }

  function FindTg(n: Node, dg: string, tg: string): (r: Option<TargetGroup>)
    ensures r.Some? ==> r.value in TargetGroupsOf(n, dg) && r.value.name == tg
    ensures r.None? ==> forall t :: t in TargetGroupsOf(n, dg) ==> t.name != tg
  {
    var r := Find(TargetGroupNamed(tg), TargetGroupsOf(n, dg));
    assert forall t :: t in TargetGroupsOf(n, dg) ==> (TargetGroupNamed(tg)(t) <==> t.name == tg);
    r
  }

  function GroupName(): DeviceGroup -> string {
    (g: DeviceGroup) => g.name
  }

  function TargetGroupName(): TargetGroup -> string {
    (t: TargetGroup) => t.name
  }

  function GroupNames(n: Node): seq<string> {
    Map(GroupName(), n.deviceGroups)
  }

  function TgNames(n: Node, dg: string): seq<string> {
    Map(TargetGroupName(), TargetGroupsOf(n, dg))
  }

  lemma GroupNamesMember(n: Node, name: string)
    ensures name in GroupNames(n) <==> FindGroup(n, name).Some?
  {
    if FindGroup(n, name).Some? {
      var g := FindGroup(n, name).value;
      var i :| 0 <= i < |n.deviceGroups| && n.deviceGroups[i] == g;
      assert GroupNames(n)[i] == name;
    }
    if name in GroupNames(n) {
      var i :| 0 <= i < |GroupNames(n)| && GroupNames(n)[i] == name;
      assert n.deviceGroups[i] in n.deviceGroups;
    }
  }

  lemma TgNamesMember(n: Node, dg: string, tg: string)
    ensures tg in TgNames(n, dg) <==> FindTg(n, dg, tg).Some?
  {
    var tgs := TargetGroupsOf(n, dg);
    if FindTg(n, dg, tg).Some? {
      var t := FindTg(n, dg, tg).value;
      var i :| 0 <= i < |tgs| && tgs[i] == t;
      assert TgNames(n, dg)[i] == tg;
    }
    if tg in TgNames(n, dg) {
      var i :| 0 <= i < |TgNames(n, dg)| && TgNames(n, dg)[i] == tg;
      assert tgs[i] in tgs;
    }
  }
}
