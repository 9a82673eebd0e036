/** What an empty LVM assessment means. */
module LvmVerdict {
  import opened Sequences
  import opened LvmSymmetry

  /** Group names are unique on the node, and so are volume names in a group. */
  ghost predicate UniqueNames(n: Inventory) {
    && (forall i, j :: 0 <= i < j < |n.vgs| ==> n.vgs[i].name != n.vgs[j].name)
    && (forall i, j :: 0 <= i < j < |n.lvs| ==>
          n.lvs[i].vgName != n.lvs[j].vgName || n.lvs[i].name != n.lvs[j].name)
  }

  ghost predicate NothingClustered(n: Inventory) {
    forall v :: v in n.vgs ==> !v.clustered
  }

  ghost predicate HasVg(n: Inventory, name: string) {
    exists v :: v in n.vgs && v.name == name
  }

  ghost predicate HasLv(n: Inventory, vg: string, name: string) {
    exists l :: l in n.lvs && l.vgName == vg && l.name == name
  }

  /** The same groups with as many physical volumes and about as much free space. */
  ghost predicate VgsAgree(x: Inventory, y: Inventory) {
    && (forall name :: HasVg(x, name) <==> HasVg(y, name))
    && forall v, w :: v in x.vgs && w in y.vgs && v.name == w.name ==>
         v.pvCount == w.pvCount && WithinTolerance(v.freeBytes, w.freeBytes)
  }

  /** In every group of `x`: the same volumes of about the same size. */
  ghost predicate LvsAgree(x: Inventory, y: Inventory) {
    && (forall vg, name :: HasVg(x, vg) ==> (HasLv(x, vg, name) <==> HasLv(y, vg, name)))
    && forall l, m :: l in x.lvs && m in y.lvs && l.vgName == m.vgName && l.name == m.name && HasVg(x, l.vgName) ==>
         WithinTolerance(l.sizeBytes, m.sizeBytes)
  }

  ghost predicate Agree(x: Inventory, y: Inventory) {
    NothingClustered(x) && NothingClustered(y) && VgsAgree(x, y) && LvsAgree(x, y)
  }

  lemma VgUnique(n: Inventory, v: Vg)
    requires UniqueNames(n) && v in n.vgs
    ensures Find(VgNamed(v.name), n.vgs) == Some(v)
  {
    var i :| 0 <= i < |n.vgs| && n.vgs[i] == v;
    FindFirst(VgNamed(v.name), n.vgs, i);
  }

  lemma LvUnique(n: Inventory, l: Lv)
    requires UniqueNames(n) && l in n.lvs
    ensures Find(LvNamed(l.vgName, l.name), n.lvs) == Some(l)
  {
    var i :| 0 <= i < |n.lvs| && n.lvs[i] == l;
    FindFirst(LvNamed(l.vgName, l.name), n.lvs, i);
  }

  lemma VgNamesMember(n: Inventory, name: string)
    ensures name in VgNames(n.vgs) <==> HasVg(n, name)
  {
    var names := Map(VgName(), n.vgs);
    if name in names {
      var i :| 0 <= i < |names| && names[i] == name;
      assert n.vgs[i] in n.vgs;
    }
    if HasVg(n, name) {
      var v :| v in n.vgs && v.name == name;
      var i :| 0 <= i < |n.vgs| && n.vgs[i] == v;
      assert names[i] == name;
    }
  }

  lemma VgFound(n: Inventory, name: string)
    ensures Find(VgNamed(name), n.vgs).Some? <==> HasVg(n, name)
    ensures Find(VgNamed(name), n.vgs).Some? ==>
              Find(VgNamed(name), n.vgs).value in n.vgs && Find(VgNamed(name), n.vgs).value.name == name
  {
    var r := Find(VgNamed(name), n.vgs);
    if HasVg(n, name) {
      var v :| v in n.vgs && v.name == name;
      assert VgNamed(name)(v);
    }
  }

  lemma LvFound(n: Inventory, vg: string, name: string)
    ensures Find(LvNamed(vg, name), n.lvs).Some? <==> HasLv(n, vg, name)
  {
    if HasLv(n, vg, name) {
      var l :| l in n.lvs && l.vgName == vg && l.name == name;
      assert LvNamed(vg, name)(l);
    }
  }

  // --- The structural part --------------------------------------------------------------

  /** The peer has the group, with as many physical volumes, and neither copy is clustered. */
  ghost predicate Matches(x: Inventory, y: Inventory, name: string) {
    && HasVg(y, name)
    && forall v, w :: v in x.vgs && w in y.vgs && v.name == w.name == name ==>
         v.pvCount == w.pvCount && !v.clustered && !w.clustered
  }

  ghost predicate StructureAgrees(x: Inventory, y: Inventory) {
    && (forall name :: HasVg(x, name) ==> Matches(x, y, name))
    && (forall w :: w in y.vgs ==> HasVg(x, w.name))
  }

  lemma PeerVgExact(x: Inventory, y: Inventory, name: string)
    requires UniqueNames(x) && UniqueNames(y) && HasVg(x, name)
    ensures PeerVgOf(x, y)(name) == [] <==> Matches(x, y, name)
  {
    VgFound(x, name);
    VgFound(y, name);
    forall v | v in x.vgs && v.name == name ensures Find(VgNamed(name), x.vgs) == Some(v) {
      VgUnique(x, v);
    }
    forall w | w in y.vgs && w.name == name ensures Find(VgNamed(name), y.vgs) == Some(w) {
      VgUnique(y, w);
    }
  }

  lemma ExtraVgExact(x: Inventory, y: Inventory)
    ensures FlatMap(ExtraVgOf(x, y), y.vgs) == [] <==> forall w :: w in y.vgs ==> HasVg(x, w.name)
  {
    FlatMapEmpty(ExtraVgOf(x, y), y.vgs);
    forall w | w in y.vgs ensures ExtraVgOf(x, y)(w) == [] <==> HasVg(x, w.name) {
      VgNamesMember(x, w.name);
    }
  }

  lemma VgNamesExact(x: Inventory, y: Inventory)
    requires UniqueNames(x) && UniqueNames(y)
    ensures FlatMap(PeerVgOf(x, y), VgNames(x.vgs)) == [] <==> forall name :: HasVg(x, name) ==> Matches(x, y, name)
  {
    FlatMapEmpty(PeerVgOf(x, y), VgNames(x.vgs));
    forall name ensures name in VgNames(x.vgs) <==> HasVg(x, name) {
      VgNamesMember(x, name);
    }
    forall name | HasVg(x, name) ensures PeerVgOf(x, y)(name) == [] <==> Matches(x, y, name) {
      PeerVgExact(x, y, name);
    }
  }

  lemma StructureExact(x: Inventory, y: Inventory)
    requires UniqueNames(x) && UniqueNames(y)
    ensures PeerStructureOf(x)(y) == [] <==> StructureAgrees(x, y)
  {
    VgNamesExact(x, y);
    ExtraVgExact(x, y);
    var a, b := FlatMap(PeerVgOf(x, y), VgNames(x.vgs)), FlatMap(ExtraVgOf(x, y), y.vgs);
    assert PeerStructureOf(x)(y) == a + b;
  }

  // --- Free space and volumes -----------------------------------------------------------

  ghost predicate FreeAgrees(y: Inventory, v: Vg) {
    forall w :: w in y.vgs && w.name == v.name ==> WithinTolerance(v.freeBytes, w.freeBytes)
  }

  ghost predicate LvSizesAgree(x: Inventory, y: Inventory, vg: string) {
    forall l, m :: l in x.lvs && m in y.lvs && l.vgName == m.vgName == vg && l.name == m.name ==>
                     WithinTolerance(l.sizeBytes, m.sizeBytes)
  }

  ghost predicate LvsIncluded(x: Inventory, y: Inventory, vg: string) {
    forall name :: HasLv(x, vg, name) ==> HasLv(y, vg, name)
  }

  /** What one group of `x` must satisfy against peer `y`, if the peer has it. */
  ghost predicate VgAgrees(x: Inventory, y: Inventory, v: Vg) {
    HasVg(y, v.name) ==>
      FreeAgrees(y, v) && LvsIncluded(x, y, v.name) && LvsIncluded(y, x, v.name) && LvSizesAgree(x, y, v.name)
  }

  lemma LvsExact(x: Inventory, y: Inventory, vg: string)
    requires UniqueNames(x) && UniqueNames(y)
    ensures FlatMap(LvOf(y, vg), Filter(LvIn(vg), x.lvs)) == []
       <==> LvsIncluded(x, y, vg) && LvSizesAgree(x, y, vg)
  {
    var mine := Filter(LvIn(vg), x.lvs);
    FlatMapEmpty(LvOf(y, vg), mine);
    forall l | l in mine
      ensures LvOf(y, vg)(l) == []
         <==> HasLv(y, vg, l.name)
              && forall m :: m in y.lvs && m.vgName == vg && m.name == l.name ==>
                               WithinTolerance(l.sizeBytes, m.sizeBytes)
    {
      LvFound(y, vg, l.name);
      forall m | m in y.lvs && m.vgName == vg && m.name == l.name
        ensures Find(LvNamed(vg, l.name), y.lvs) == Some(m)
      {
        LvUnique(y, m);
      }
    }
    assert forall l :: l in mine <==> l in x.lvs && l.vgName == vg;
  }

  lemma ExtraLvsExact(x: Inventory, y: Inventory, vg: string)
    ensures FlatMap(ExtraLvOf(Filter(LvIn(vg), x.lvs), y, vg), Filter(LvIn(vg), y.lvs)) == []
       <==> LvsIncluded(y, x, vg)
  {
    var mine, theirs := Filter(LvIn(vg), x.lvs), Filter(LvIn(vg), y.lvs);
    FlatMapEmpty(ExtraLvOf(mine, y, vg), theirs);
    assert forall l :: l in mine <==> l in x.lvs && l.vgName == vg;
    assert forall l :: l in theirs <==> l in y.lvs && l.vgName == vg;
    forall l | l in theirs ensures ExtraLvOf(mine, y, vg)(l) == [] <==> HasLv(x, vg, l.name) {
    }
    if forall l :: l in theirs ==> HasLv(x, vg, l.name) {
      forall name | HasLv(y, vg, name) ensures HasLv(x, vg, name) {
        var l :| l in y.lvs && l.vgName == vg && l.name == name;
        assert l in theirs;
      }
    }
    forall l | l in theirs ensures HasLv(y, vg, l.name) {
    }
  }

  lemma FreeExact(y: Inventory, v: Vg)
    requires UniqueNames(y) && HasVg(y, v.name)
    ensures Find(VgNamed(v.name), y.vgs).Some?
    ensures WithinTolerance(v.freeBytes, Find(VgNamed(v.name), y.vgs).value.freeBytes)
       <==> FreeAgrees(y, v)
  {
    VgFound(y, v.name);
    forall w | w in y.vgs && w.name == v.name ensures Find(VgNamed(v.name), y.vgs) == Some(w) {
      VgUnique(y, w);
    }
  }

  lemma VgOnPeerParts(x: Inventory, y: Inventory, v: Vg)
    requires Find(VgNamed(v.name), y.vgs).Some?
    ensures VgOnPeer(x, v)(y) == []
       <==> WithinTolerance(v.freeBytes, Find(VgNamed(v.name), y.vgs).value.freeBytes)
            && FlatMap(LvOf(y, v.name), Filter(LvIn(v.name), x.lvs)) == []
            && FlatMap(ExtraLvOf(Filter(LvIn(v.name), x.lvs), y, v.name), Filter(LvIn(v.name), y.lvs)) == []
  {
  }

  lemma VgExact(x: Inventory, y: Inventory, v: Vg)
    requires UniqueNames(x) && UniqueNames(y)
    ensures VgOnPeer(x, v)(y) == [] <==> VgAgrees(x, y, v)
  {
    VgFound(y, v.name);
    if HasVg(y, v.name) {
      FreeExact(y, v);
      VgOnPeerParts(x, y, v);
      LvsExact(x, y, v.name);
      ExtraLvsExact(x, y, v.name);
    }
  }

  // --- The verdict ----------------------------------------------------------------------

  lemma AgreeByParts(x: Inventory, y: Inventory)
    ensures Agree(x, y)
       <==> NothingClustered(x) && StructureAgrees(x, y) && forall v :: v in x.vgs ==> VgAgrees(x, y, v)
  {
    if NothingClustered(x) && StructureAgrees(x, y) && forall v :: v in x.vgs ==> VgAgrees(x, y, v) {
      forall w | w in y.vgs ensures !w.clustered {
        var v :| v in x.vgs && v.name == w.name;
        assert Matches(x, y, w.name);
      }
      forall vg, name | HasVg(x, vg) ensures HasLv(x, vg, name) <==> HasLv(y, vg, name) {
        var v :| v in x.vgs && v.name == vg;
        assert VgAgrees(x, y, v);
      }
      forall l, m | l in x.lvs && m in y.lvs && l.vgName == m.vgName && l.name == m.name && HasVg(x, l.vgName)
        ensures WithinTolerance(l.sizeBytes, m.sizeBytes)
      {
        var v :| v in x.vgs && v.name == l.vgName;
        assert VgAgrees(x, y, v);
      }
      forall v, w | v in x.vgs && w in y.vgs && v.name == w.name
        ensures v.pvCount == w.pvCount && WithinTolerance(v.freeBytes, w.freeBytes)
      {
        assert VgAgrees(x, y, v) && HasVg(x, v.name) && Matches(x, y, v.name);
      }
    }
    if Agree(x, y) {
      forall v | v in x.vgs ensures VgAgrees(x, y, v) {
        assert HasVg(x, v.name);
      }
    }
  }

  lemma AssessParts(x: Inventory, peers: seq<Inventory>)
    ensures Assess(x, peers) == []
       <==> NothingClustered(x)
            && (forall y :: y in peers ==> PeerStructureOf(x)(y) == [])
            && forall v, y :: v in x.vgs && y in peers ==> VgOnPeer(x, v)(y) == []
  {
    FlatMapEmpty(ClusteredOf(), x.vgs);
    assert forall v: Vg :: ClusteredOf()(v) == [] <==> !v.clustered;
    FlatMapEmpty(PeerStructureOf(x), peers);
    FlatMapEmpty(VgOnPeers(x, peers), x.vgs);
    forall v ensures VgOnPeers(x, peers)(v) == [] <==> forall y :: y in peers ==> VgOnPeer(x, v)(y) == [] {
      FlatMapEmpty(VgOnPeer(x, v), peers);
    }
  }

  /** No issue is reported exactly when nothing is clustered and every peer agrees. */
  lemma AssessExact(x: Inventory, peers: seq<Inventory>)
    requires UniqueNames(x) && forall y :: y in peers ==> UniqueNames(y)
    ensures Assess(x, peers) == [] <==> NothingClustered(x) && forall y :: y in peers ==> Agree(x, y)
  {
    AssessParts(x, peers);
    forall y | y in peers
      ensures PeerStructureOf(x)(y) == [] <==> StructureAgrees(x, y)
      ensures NothingClustered(x) ==>
                (Agree(x, y) <==> StructureAgrees(x, y) && forall v :: v in x.vgs ==> VgAgrees(x, y, v))
    {
      StructureExact(x, y);
      AgreeByParts(x, y);
    }
    forall v, y | v in x.vgs && y in peers ensures VgOnPeer(x, v)(y) == [] <==> VgAgrees(x, y, v) {
      VgExact(x, y, v);
    }
  }

  lemma AgreeSymmetric(x: Inventory, y: Inventory)
    ensures Agree(x, y) ==> Agree(y, x)
  {
  }

  /** The verdict on two nodes does not depend on which of them is called local. */
  lemma VerdictSymmetric(x: Inventory, y: Inventory)
    requires UniqueNames(x) && UniqueNames(y)
    ensures Assess(x, [y]) == [] <==> Assess(y, [x]) == []
    ensures Assess(x, [y]) == [] <==> Agree(x, y)
  {
    AssessExact(x, [y]);
    AssessExact(y, [x]);
    AgreeSymmetric(x, y);
    AgreeSymmetric(y, x);
    assert y in [y] && x in [x];
  }

  /** Two sizes that both agree with a third are at most twice the tolerance apart. */
  lemma ToleranceTwice(a: int, b: int, c: int)
    requires WithinTolerance(b, a) && WithinTolerance(b, c)
    ensures 100 * Distance(a, c) <= 2 * Max(100 * TOLERANCE_MIN_BYTES, Max(Max(Max(a, b), c), 1))
  {
  }

  /** When nothing is reported, the sizes of a group or volume on any two peers are within twice
      the tolerance of the largest of the three copies. */
  lemma PeersBounded(x: Inventory, peers: seq<Inventory>, y: Inventory, z: Inventory)
    requires UniqueNames(x) && forall p :: p in peers ==> UniqueNames(p)
    requires Assess(x, peers) == [] && y in peers && z in peers
    ensures forall u, v, w :: u in x.vgs && v in y.vgs && w in z.vgs && u.name == v.name == w.name ==>
              100 * Distance(v.freeBytes, w.freeBytes)
                <= 2 * Max(100 * TOLERANCE_MIN_BYTES, Max(Max(Max(v.freeBytes, u.freeBytes), w.freeBytes), 1))
    ensures forall v :: v in y.vgs ==> HasVg(x, v.name) && HasVg(z, v.name)
    ensures forall k, l, m :: (k in x.lvs && l in y.lvs && m in z.lvs && HasVg(x, k.vgName)
                               && k.vgName == l.vgName == m.vgName && k.name == l.name == m.name) ==>
              100 * Distance(l.sizeBytes, m.sizeBytes)
                <= 2 * Max(100 * TOLERANCE_MIN_BYTES, Max(Max(Max(l.sizeBytes, k.sizeBytes), m.sizeBytes), 1))
  {
    AssessExact(x, peers);
    assert Agree(x, y) && Agree(x, z);
    forall u, v, w | u in x.vgs && v in y.vgs && w in z.vgs && u.name == v.name == w.name
      ensures 100 * Distance(v.freeBytes, w.freeBytes)
                <= 2 * Max(100 * TOLERANCE_MIN_BYTES, Max(Max(Max(v.freeBytes, u.freeBytes), w.freeBytes), 1))
    {
      ToleranceTwice(v.freeBytes, u.freeBytes, w.freeBytes);
    }
    forall v | v in y.vgs ensures HasVg(x, v.name) && HasVg(z, v.name) {
      assert HasVg(y, v.name);
    }
    forall k, l, m | k in x.lvs && l in y.lvs && m in z.lvs && HasVg(x, k.vgName)
      && k.vgName == l.vgName == m.vgName && k.name == l.name == m.name
      ensures 100 * Distance(l.sizeBytes, m.sizeBytes)
                <= 2 * Max(100 * TOLERANCE_MIN_BYTES, Max(Max(Max(l.sizeBytes, k.sizeBytes), m.sizeBytes), 1))
    {
      ToleranceTwice(l.sizeBytes, k.sizeBytes, m.sizeBytes);
    }
  }
}
