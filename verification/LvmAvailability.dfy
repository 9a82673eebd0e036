/** SCST linkage of logical volumes, on one node and across a cluster,
    `utils/lvm-action-availability.ts`. */
module LvmAvailability {
  import opened Sequences

  datatype UiState = NotLinked | Linked | Partial

  /** The rich linkage of a volume, when it has been computed. */
  datatype Binding = Binding(state: UiState, deviceNames: seq<string>)

  /** A logical volume. `scstDeviceNames` is the older, flat list of its SCST devices. */
  datatype Volume = Volume(vgName: string, name: string, path: string, scst: Option<Binding>,
                           scstDeviceNames: Option<seq<string>>)

  datatype Group = Group(name: string, freeBytes: int, clustered: bool)

  datatype Node = Node(id: string, ready: bool, lvs: seq<Volume>)

  function DeviceNames(lv: Volume): seq<string> {
    if lv.scst.Some? then lv.scst.value.deviceNames
    else if lv.scstDeviceNames.Some? then lv.scstDeviceNames.value else []
  }

  /** `lvScstUiState`. */
  function ScstUiState(lv: Volume): UiState {
    if lv.scst.Some? && lv.scst.value.state == Partial then Partial
    else if DeviceNames(lv) != [] then Linked
    else NotLinked
  }

  predicate CanBindScst(lv: Volume) { ScstUiState(lv) == NotLinked }

  function HasFreeSpace(): Group -> bool { (v: Group) => !v.clustered && v.freeBytes > 0 }
  function VgsWithFreeSpace(vgs: seq<Group>): seq<Group> { Filter(HasFreeSpace(), vgs) }

  // --- One volume across the cluster ----------------------------------------------------

  function IsReady(): Node -> bool { (n: Node) => n.ready }
  function Keyed(vg: string, name: string): Volume -> bool { (l: Volume) => l.vgName == vg && l.name == name }

  function CopyOn(n: Node, vg: string, name: string): Option<Volume> { Find(Keyed(vg, name), n.lvs) }

  /** The node's copy of the volume is linked in the sense of the user interface. */
  function IsLinked(vg: string, name: string): Node -> bool {
    (n: Node) => CopyOn(n, vg, name).Some? && ScstUiState(CopyOn(n, vg, name).value) != NotLinked
  }

  function NamesOn(vg: string, name: string): Node -> seq<string> {
    (n: Node) => if CopyOn(n, vg, name).Some? then DeviceNames(CopyOn(n, vg, name).value) else []
  }

  /** The node's copy of the volume has device names. */
  function HasNames(vg: string, name: string): Node -> bool { (n: Node) => NamesOn(vg, name)(n) != [] }

  function Summary(linked: nat, total: nat): UiState {
    if linked == 0 then NotLinked else if linked == total then Linked else Partial
  }

  method CountLinked(ready: seq<Node>, vg: string, name: string) returns (linked: nat)
    ensures linked == |Filter(IsLinked(vg, name), ready)|
  {
    linked := 0;
    for i := 0 to |ready|
      invariant linked == |Filter(IsLinked(vg, name), ready[..i])|
    {
      FilterStep(IsLinked(vg, name), ready, i);
      if IsLinked(vg, name)(ready[i]) {
        linked := linked + 1;
      }
    }
    assert ready[..|ready|] == ready;
  }

  /** `clusterLvScstStateForKey`: a count over the ready nodes. */
  method ClusterLvScstStateForKey(nodes: seq<Node>, vg: string, name: string) returns (state: UiState)
    ensures state == ClusterState(nodes, vg, name)
  {
    var ready := Filter(IsReady(), nodes);
    if |ready| == 0 {
      return NotLinked;
    }
    var linked := CountLinked(ready, vg, name);
    state := Summary(linked, |ready|);
  }

  function ClusterState(nodes: seq<Node>, vg: string, name: string): UiState {
    var ready := Filter(IsReady(), nodes);
    if ready == [] then NotLinked else Summary(|Filter(IsLinked(vg, name), ready)|, |ready|)
  }

  /** `enrichLvWithClusterScst`. */
  function Enriched(lv: Volume, nodes: seq<Node>): Volume {
    var ready := Filter(IsReady(), nodes);
    if ready == [] then lv
    else
      var linked := |Filter(HasNames(lv.vgName, lv.name), ready)|;
      var names := Dedup(FlatMap(NamesOn(lv.vgName, lv.name), ready) + DeviceNames(lv));
      lv.(scst := Some(Binding(Summary(linked, |ready|), names)),
          scstDeviceNames := if names != [] then Some(names) else None)
  }

  method AddName(names: seq<string>, ghost seen: seq<string>, name: string) returns (out: seq<string>)
    requires names == Dedup(seen)
    ensures out == Dedup(seen + [name])
  {
    assert (seen + [name])[..|seen|] == seen;
    out := if name in names then names else names + [name];
  }

  method AddMissing(remote: seq<string>, local: seq<string>) returns (names: seq<string>)
    ensures names == Dedup(remote + local)
  {
    names := Dedup(remote);
    assert remote + local[..0] == remote;
    for i := 0 to |local|
      invariant names == Dedup(remote + local[..i])
    {
      assert remote + local[..i] + [local[i]] == remote + local[..i + 1];
      names := AddName(names, remote + local[..i], local[i]);
    }
    assert local[..|local|] == local;
  }

  /** The names of the nodes first, then those of the volume itself that are still missing. */
  method EnrichLvWithClusterScst(lv: Volume, nodes: seq<Node>) returns (r: Volume)
    ensures r == Enriched(lv, nodes)
  {
    var ready := Filter(IsReady(), nodes);
    if ready == [] {
      return lv;
    }
    var linked := |Filter(HasNames(lv.vgName, lv.name), ready)|;
    var remote := FlatMap(NamesOn(lv.vgName, lv.name), ready);
    var names := AddMissing(remote, DeviceNames(lv));
    r := lv.(scst := Some(Binding(Summary(linked, |ready|), names)),
             scstDeviceNames := if names != [] then Some(names) else None);
  }

  /** The count says "linked" exactly when every ready node is, and "none" exactly when no ready node is. */
  lemma ClusterStateExact(nodes: seq<Node>, vg: string, name: string)
    ensures ClusterState(nodes, vg, name) == NotLinked
       <==> forall n :: n in nodes && n.ready ==> !IsLinked(vg, name)(n)
    ensures ClusterState(nodes, vg, name) == Linked
       <==> (exists n :: n in nodes && n.ready) && forall n :: n in nodes && n.ready ==> IsLinked(vg, name)(n)
  {
    var ready := Filter(IsReady(), nodes);
    var linked := Filter(IsLinked(vg, name), ready);
    FilterCount(IsLinked(vg, name), ready);
    assert linked != [] ==> linked[0] in linked;
    assert ready != [] ==> ready[0] in ready;
    assert forall n :: n in linked <==> n in ready && IsLinked(vg, name)(n);
  }

  ghost predicate SomeReady(nodes: seq<Node>, p: Node -> bool) { exists n :: n in nodes && n.ready && p(n) }

  ghost predicate AllReady(nodes: seq<Node>, p: Node -> bool) { forall n :: n in nodes && n.ready ==> p(n) }

  ghost predicate NodeReady(nodes: seq<Node>) { exists n :: n in nodes && n.ready }

  lemma NamedMeansLinked(vg: string, name: string, n: Node)
    ensures HasNames(vg, name)(n) ==> IsLinked(vg, name)(n)
  {
    if HasNames(vg, name)(n) {
      var copy := CopyOn(n, vg, name);
      assert NamesOn(vg, name)(n) == if copy.Some? then DeviceNames(copy.value) else [];
      assert copy.Some? && DeviceNames(copy.value) != [];
    }
  }

  lemma SummaryExact(nodes: seq<Node>, p: Node -> bool)
    requires NodeReady(nodes)
    ensures var ready := Filter(IsReady(), nodes);
            Summary(|Filter(p, ready)|, |ready|)
            == if !SomeReady(nodes, p) then NotLinked else if AllReady(nodes, p) then Linked else Partial
  {
    var ready := Filter(IsReady(), nodes);
    var hits := Filter(p, ready);
    FilterCount(p, ready);
    assert hits != [] ==> hits[0] in hits;
    assert forall n :: n in hits <==> n in ready && p(n);
    assert forall n :: n in ready <==> n in nodes && n.ready;
  }

  /** What the enriched row shows when some node is ready. */
  lemma EnrichedState(lv: Volume, nodes: seq<Node>)
    requires NodeReady(nodes)
    ensures var named := HasNames(lv.vgName, lv.name);
            ScstUiState(Enriched(lv, nodes))
            == if SomeReady(nodes, named) && !AllReady(nodes, named) then Partial
               else if SomeReady(nodes, named) || DeviceNames(lv) != [] then Linked else NotLinked
  {
    SummaryExact(nodes, HasNames(lv.vgName, lv.name));
    EnrichedNames(lv, nodes);
    assert Filter(IsReady(), nodes) != [];
  }

  /** The enriched row and the count over the nodes show the same state exactly in these cases: without a
      ready node, if the row is not linked; if no ready node has device names, when the row has some and all
      nodes count as linked, or has none and no node does; else, when all nodes have device names or not all
      of them count as linked. */
  lemma EnrichedAgrees(lv: Volume, nodes: seq<Node>)
    ensures var named, linked := HasNames(lv.vgName, lv.name), IsLinked(lv.vgName, lv.name);
            ScstUiState(Enriched(lv, nodes)) == ClusterState(nodes, lv.vgName, lv.name)
            <==> if !NodeReady(nodes) then ScstUiState(lv) == NotLinked
                 else if !SomeReady(nodes, named) then
                   (if DeviceNames(lv) != [] then AllReady(nodes, linked) else !SomeReady(nodes, linked))
                 else AllReady(nodes, named) || !AllReady(nodes, linked)
  {
    var vg, name := lv.vgName, lv.name;
    var ready := Filter(IsReady(), nodes);
    if NodeReady(nodes) {
      assert ready != [];
      EnrichedState(lv, nodes);
      SummaryExact(nodes, IsLinked(vg, name));
      forall n ensures HasNames(vg, name)(n) ==> IsLinked(vg, name)(n) {
        NamedMeansLinked(vg, name, n);
      }
    } else {
      NoneReady(nodes);
    }
  }

  lemma NoneReady(nodes: seq<Node>)
    requires !NodeReady(nodes)
    ensures Filter(IsReady(), nodes) == []
  {
    FilterNone(IsReady(), nodes);
  }

  /** A row that enriching calls partially linked has device names. */
  lemma PartialIsNamed(lv: Volume, nodes: seq<Node>)
    requires NodeReady(nodes) && ScstUiState(Enriched(lv, nodes)) == Partial
    ensures DeviceNames(Enriched(lv, nodes)) != []
  {
    EnrichedState(lv, nodes);
    EnrichedNames(lv, nodes);
  }

  /** So if the copies on the nodes were read from SCST or enriched, which call none of them linked without a
      device name, the two differ exactly when the row has device names and no ready node reports any. */
  lemma EnrichedAgreesNamed(lv: Volume, nodes: seq<Node>)
    requires NodeReady(nodes)
    requires forall n :: n in nodes && n.ready && IsLinked(lv.vgName, lv.name)(n) ==> HasNames(lv.vgName, lv.name)(n)
    ensures ScstUiState(Enriched(lv, nodes)) != ClusterState(nodes, lv.vgName, lv.name)
       <==> DeviceNames(lv) != [] && !SomeReady(nodes, HasNames(lv.vgName, lv.name))
  {
    EnrichedAgrees(lv, nodes);
    var n :| n in nodes && n.ready;
  }

  lemma EnrichedNames(lv: Volume, nodes: seq<Node>)
    requires exists n :: n in nodes && n.ready
    ensures DeviceNames(Enriched(lv, nodes)) != []
       <==> DeviceNames(lv) != [] || exists n :: n in nodes && n.ready && HasNames(lv.vgName, lv.name)(n)
  {
    var vg, name := lv.vgName, lv.name;
    var ready := Filter(IsReady(), nodes);
    var all := FlatMap(NamesOn(vg, name), ready) + DeviceNames(lv);
    FlatMapEmpty(NamesOn(vg, name), ready);
    assert all != [] ==> all[0] in Dedup(all);
    assert Dedup(all) != [] ==> Dedup(all)[0] in all;
  }
}
