/** Comparing LVM inventories across nodes, `utils/lvm-cluster-symmetry.ts`. */
module LvmSymmetry {
  import opened Sequences

  datatype Vg = Vg(name: string, pvCount: int, freeBytes: int, clustered: bool)
  datatype Lv = Lv(vgName: string, name: string, sizeBytes: int)
  datatype Inventory = Inventory(node: string, vgs: seq<Vg>, lvs: seq<Lv>)

  datatype Severity = Warning | Critical

  /** What an issue says; `node` is the peer it names. */
  datatype Message =
    | VgClustered | VgMissingOn(node: string) | PvCountDiffers(node: string) | VgOnlyOn(node: string)
    | FreeSpaceDiffers(node: string) | LvMissingOn(lv: string, node: string) | LvSizeDiffers(node: string)
    | LvOnlyOn(lv: string, node: string)

  datatype Issue = Issue(vgName: string, lvName: Option<string>, severity: Severity, message: Message)

  const TOLERANCE_MIN_BYTES: int := 4 * 1024 * 1024

  function Max(a: int, b: int): int { if a < b then b else a }
  function Distance(a: int, b: int): nat { if a < b then b - a else a - b }

  /** At most 4 MiB or one percent of the larger size apart. */
  predicate WithinTolerance(a: int, b: int) {
    Distance(a, b) <= TOLERANCE_MIN_BYTES || 100 * Distance(a, b) <= Max(Max(a, b), 1)
  }

  function VgNamed(name: string): Vg -> bool { (v: Vg) => v.name == name }
  function LvIn(vg: string): Lv -> bool { (l: Lv) => l.vgName == vg }
  function LvNamed(vg: string, name: string): Lv -> bool { (l: Lv) => l.vgName == vg && l.name == name }
  function VgName(): Vg -> string { (v: Vg) => v.name }

  /** The distinct names of the groups, in order. */
  function VgNames(vgs: seq<Vg>): seq<string> { Dedup(Map(VgName(), vgs)) }

  // --- What the loops append ------------------------------------------------------------

  function ClusteredOf(): Vg -> seq<Issue> {
    (v: Vg) => if v.clustered then [Issue(v.name, None, Critical, VgClustered)] else []
  }

  function PeerVgOf(local: Inventory, peer: Inventory): string -> seq<Issue> {
    (name: string) =>
      var mine, theirs := Find(VgNamed(name), local.vgs), Find(VgNamed(name), peer.vgs);
      if theirs.None? then [Issue(name, None, Warning, VgMissingOn(peer.node))]
      else
        (if mine.Some? && mine.value.pvCount != theirs.value.pvCount
         then [Issue(name, None, Warning, PvCountDiffers(peer.node))] else [])
        + (if theirs.value.clustered || (mine.Some? && mine.value.clustered)
           then [Issue(name, None, Critical, VgClustered)] else [])
  }

  function ExtraVgOf(local: Inventory, peer: Inventory): Vg -> seq<Issue> {
    (v: Vg) => if v.name in VgNames(local.vgs) then [] else [Issue(v.name, None, Warning, VgOnlyOn(peer.node))]
  }

  function PeerStructureOf(local: Inventory): Inventory -> seq<Issue> {
    (peer: Inventory) =>
      FlatMap(PeerVgOf(local, peer), VgNames(local.vgs)) + FlatMap(ExtraVgOf(local, peer), peer.vgs)
  }

  function StructuralIssues(local: Inventory, peers: seq<Inventory>): seq<Issue> {
    FlatMap(ClusteredOf(), local.vgs) + FlatMap(PeerStructureOf(local), peers)
  }

  function LvOf(peer: Inventory, vg: string): Lv -> seq<Issue> {
    (l: Lv) =>
      var theirs := Find(LvNamed(vg, l.name), peer.lvs);
      if theirs.None? then [Issue(vg, Some(l.name), Warning, LvMissingOn(l.name, peer.node))]
      else if !WithinTolerance(l.sizeBytes, theirs.value.sizeBytes)
      then [Issue(vg, Some(l.name), Warning, LvSizeDiffers(peer.node))] else []
  }

  function ExtraLvOf(mine: seq<Lv>, peer: Inventory, vg: string): Lv -> seq<Issue> {
    (l: Lv) =>
      if exists m :: m in mine && m.name == l.name then []
      else [Issue(vg, Some(l.name), Warning, LvOnlyOn(l.name, peer.node))]
  }

  function VgOnPeer(local: Inventory, vg: Vg): Inventory -> seq<Issue> {
    (peer: Inventory) =>
      var theirs := Find(VgNamed(vg.name), peer.vgs);
      if theirs.None? then []
      else
        var mine := Filter(LvIn(vg.name), local.lvs);
        (if WithinTolerance(vg.freeBytes, theirs.value.freeBytes) then []
         else [Issue(vg.name, None, Warning, FreeSpaceDiffers(peer.node))])
        + FlatMap(LvOf(peer, vg.name), mine)
        + FlatMap(ExtraLvOf(mine, peer, vg.name), Filter(LvIn(vg.name), peer.lvs))
  }

  function VgOnPeers(local: Inventory, peers: seq<Inventory>): Vg -> seq<Issue> {
    (vg: Vg) => FlatMap(VgOnPeer(local, vg), peers)
  }

  function Assess(local: Inventory, peers: seq<Inventory>): seq<Issue> {
    StructuralIssues(local, peers) + FlatMap(VgOnPeers(local, peers), local.vgs)
  }

  // --- The loops ------------------------------------------------------------------------

  method FindLvmStructuralIssues(local: Inventory, peers: seq<Inventory>) returns (issues: seq<Issue>)
    ensures issues == StructuralIssues(local, peers)
  {
    issues := [];
    for i := 0 to |local.vgs|
      invariant issues == FlatMap(ClusteredOf(), local.vgs[..i])
    {
      FlatMapStep(ClusteredOf(), local.vgs, i);
      if local.vgs[i].clustered {
        issues := issues + [Issue(local.vgs[i].name, None, Critical, VgClustered)];
      }
    }
    assert local.vgs[..|local.vgs|] == local.vgs;
    ghost var before := issues;
    for i := 0 to |peers|
      invariant issues == before + FlatMap(PeerStructureOf(local), peers[..i])
    {
      FlatMapStep(PeerStructureOf(local), peers, i);
      AppendAssociative(before, FlatMap(PeerStructureOf(local), peers[..i]), PeerStructureOf(local)(peers[i]));
      issues := ComparePeerStructure(issues, local, peers[i]);
    }
    assert peers[..|peers|] == peers;
  }

  method ComparePeerStructure(issues: seq<Issue>, local: Inventory, peer: Inventory) returns (out: seq<Issue>)
    ensures out == issues + PeerStructureOf(local)(peer)
  {
    var found := CompareVgNames(local, peer);
    found := FindExtraVgs(found, local, peer);
    out := issues + found;
  }

  method CompareVgNames(local: Inventory, peer: Inventory) returns (found: seq<Issue>)
    ensures found == FlatMap(PeerVgOf(local, peer), VgNames(local.vgs))
  {
    var names := VgNames(local.vgs);
    found := [];
    for i := 0 to |names|
      invariant found == FlatMap(PeerVgOf(local, peer), names[..i])
    {
      FlatMapStep(PeerVgOf(local, peer), names, i);
      var issues := CompareVgNamed(local, peer, names[i]);
      found := found + issues;
    }
    assert names[..|names|] == names;
  }

  method CompareVgNamed(local: Inventory, peer: Inventory, name: string) returns (found: seq<Issue>)
    ensures found == PeerVgOf(local, peer)(name)
  {
    found := [];
    var mine, theirs := Find(VgNamed(name), local.vgs), Find(VgNamed(name), peer.vgs);
    if theirs.None? {
      return [Issue(name, None, Warning, VgMissingOn(peer.node))];
    }
    if mine.Some? && mine.value.pvCount != theirs.value.pvCount {
      found := found + [Issue(name, None, Warning, PvCountDiffers(peer.node))];
    }
    if theirs.value.clustered || (mine.Some? && mine.value.clustered) {
      found := found + [Issue(name, None, Critical, VgClustered)];
    }
  }

  method FindExtraVgs(issues: seq<Issue>, local: Inventory, peer: Inventory) returns (out: seq<Issue>)
    ensures out == issues + FlatMap(ExtraVgOf(local, peer), peer.vgs)
  {
    out := issues;
    for i := 0 to |peer.vgs|
      invariant out == issues + FlatMap(ExtraVgOf(local, peer), peer.vgs[..i])
    {
      FlatMapStep(ExtraVgOf(local, peer), peer.vgs, i);
      if peer.vgs[i].name !in VgNames(local.vgs) {
        out := out + [Issue(peer.vgs[i].name, None, Warning, VgOnlyOn(peer.node))];
      }
    }
    assert peer.vgs[..|peer.vgs|] == peer.vgs;
  }

  method CompareVg(issues: seq<Issue>, local: Inventory, vg: Vg, peer: Inventory) returns (out: seq<Issue>)
    ensures out == issues + VgOnPeer(local, vg)(peer)
  {
    var theirs := Find(VgNamed(vg.name), peer.vgs);
    if theirs.None? {
      return issues;
    }
    var found: seq<Issue> := [];
    if !WithinTolerance(vg.freeBytes, theirs.value.freeBytes) {
      found := [Issue(vg.name, None, Warning, FreeSpaceDiffers(peer.node))];
    }
    var mine := Filter(LvIn(vg.name), local.lvs);
    found := CompareLvs(found, mine, peer, vg.name);
    found := FindExtraLvs(found, mine, peer, vg.name);
    out := issues + found;
  }

  method CompareLvs(issues: seq<Issue>, mine: seq<Lv>, peer: Inventory, vg: string) returns (out: seq<Issue>)
    ensures out == issues + FlatMap(LvOf(peer, vg), mine)
  {
    out := issues;
    for i := 0 to |mine|
      invariant out == issues + FlatMap(LvOf(peer, vg), mine[..i])
    {
      FlatMapStep(LvOf(peer, vg), mine, i);
      var theirs := Find(LvNamed(vg, mine[i].name), peer.lvs);
      if theirs.None? {
        out := out + [Issue(vg, Some(mine[i].name), Warning, LvMissingOn(mine[i].name, peer.node))];
        continue;
      }
      if !WithinTolerance(mine[i].sizeBytes, theirs.value.sizeBytes) {
        out := out + [Issue(vg, Some(mine[i].name), Warning, LvSizeDiffers(peer.node))];
      }
    }
    assert mine[..|mine|] == mine;
  }

  method FindExtraLvs(issues: seq<Issue>, mine: seq<Lv>, peer: Inventory, vg: string) returns (out: seq<Issue>)
    ensures out == issues + FlatMap(ExtraLvOf(mine, peer, vg), Filter(LvIn(vg), peer.lvs))
  {
    out := issues;
    var theirs := Filter(LvIn(vg), peer.lvs);
    for i := 0 to |theirs|
      invariant out == issues + FlatMap(ExtraLvOf(mine, peer, vg), theirs[..i])
    {
      FlatMapStep(ExtraLvOf(mine, peer, vg), theirs, i);
      var known := exists m :: m in mine && m.name == theirs[i].name;
      if !known {
        out := out + [Issue(vg, Some(theirs[i].name), Warning, LvOnlyOn(theirs[i].name, peer.node))];
      }
    }
    assert theirs[..|theirs|] == theirs;
  }

  method AssessLocalSymmetricLvm(local: Inventory, peers: seq<Inventory>) returns (issues: seq<Issue>)
    ensures issues == Assess(local, peers)
  {
    issues := FindLvmStructuralIssues(local, peers);
    ghost var before := issues;
    for i := 0 to |local.vgs|
      invariant issues == before + FlatMap(VgOnPeers(local, peers), local.vgs[..i])
    {
      FlatMapStep(VgOnPeers(local, peers), local.vgs, i);
      AppendAssociative(before, FlatMap(VgOnPeers(local, peers), local.vgs[..i]),
                        VgOnPeers(local, peers)(local.vgs[i]));
      issues := CompareVgWithPeers(issues, local, peers, local.vgs[i]);
    }
    assert local.vgs[..|local.vgs|] == local.vgs;
  }

  method CompareVgWithPeers(issues: seq<Issue>, local: Inventory, peers: seq<Inventory>, vg: Vg)
    returns (out: seq<Issue>)
    ensures out == issues + VgOnPeers(local, peers)(vg)
  {
    out := issues;
    for j := 0 to |peers|
      invariant out == issues + FlatMap(VgOnPeer(local, vg), peers[..j])
    {
      FlatMapStep(VgOnPeer(local, vg), peers, j);
      AppendAssociative(issues, FlatMap(VgOnPeer(local, vg), peers[..j]), VgOnPeer(local, vg)(peers[j]));
      out := CompareVg(out, local, vg, peers[j]);
    }
    assert peers[..|peers|] == peers;
  }
}
