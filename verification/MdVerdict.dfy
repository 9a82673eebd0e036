/** What the MD symmetry results mean. */
module MdVerdict {
  import opened Sequences
  import opened MdSymmetry

  predicate Compatible<T(==)>(x: Option<T>, y: Option<T>) { x.None? || y.None? || x == y }

  /** Two copies agree on everything both of them know. */
  predicate Agrees(a: Snapshot, b: Snapshot) {
    && Compatible(a.raidLevel, b.raidLevel)
    && Compatible(a.raidDevices, b.raidDevices)
    && Compatible(a.activeDevices, b.activeDevices)
    && Compatible(a.memberCount, b.memberCount)
    && HealthBucket(a.state) == HealthBucket(b.state)
    && SizesClose(a.sizeBytes, b.sizeBytes)
    && OrElse(a.failedDevices, 0) == OrElse(b.failedDevices, 0)
  }

  lemma CopyExact(name: string, a: Snapshot, n: Copy)
    ensures CopyIssues(name, a)(n) == [] <==> Agrees(a, n.snapshot)
  {
    assert LayoutIssues(name, a, n) == []
      <==> LevelIssue(name, a, n) == [] && DeviceCountIssue(name, a, n) == []
           && ActiveDevicesIssue(name, a, n) == [] && MemberCountIssue(name, a, n) == [];
    assert ConditionIssues(name, a, n) == []
      <==> StateIssue(name, a, n) == [] && SizeIssue(name, a, n) == [] && FailedIssue(name, a, n) == [];
  }

  lemma CopiesActive(local: Node, peers: seq<Node>, name: string)
    ensures Filter(ActiveCopy(), Copies(local, peers, name)) == Copies(local, peers, name)
  {
    var copies := Copies(local, peers, name);
    forall n | n in copies ensures IsActive(n.snapshot) {
      FlatMapMember(PeerCopy(local, name), peers, n);
    }
    FilterAll(ActiveCopy(), copies);
  }

  ghost predicate ReferenceAgrees(copies: seq<Copy>) {
    forall i :: 0 < i < |copies| ==> Agrees(copies[0].snapshot, copies[i].snapshot)
  }

  lemma RestAgrees(copies: seq<Copy>)
    requires copies != []
    ensures (forall n :: n in copies[1..] ==> Agrees(copies[0].snapshot, n.snapshot)) <==> ReferenceAgrees(copies)
  {
    var rest := copies[1..];
    assert forall i :: 0 < i < |copies| ==> copies[i] == rest[i - 1];
    if ReferenceAgrees(copies) {
      forall n | n in rest ensures Agrees(copies[0].snapshot, n.snapshot) {
        var i :| 0 <= i < |rest| && rest[i] == n;
        assert copies[i + 1] == n;
      }
    }
  }

  lemma CompareExact(local: Node, peers: seq<Node>, name: string)
    ensures CompareCopies(name, Copies(local, peers, name)) == [] <==> ReferenceAgrees(Copies(local, peers, name))
  {
    var copies := Copies(local, peers, name);
    CopiesActive(local, peers, name);
    if copies != [] {
      CompareRest(name, copies);
    }
  }

  lemma CompareRest(name: string, copies: seq<Copy>)
    requires copies != []
    ensures FlatMap(CopyIssues(name, copies[0].snapshot), copies[1..]) == [] <==> ReferenceAgrees(copies)
  {
    var a := copies[0].snapshot;
    FlatMapEmpty(CopyIssues(name, a), copies[1..]);
    forall n ensures CopyIssues(name, a)(n) == [] <==> Agrees(a, n.snapshot) {
      CopyExact(name, a, n);
    }
    RestAgrees(copies);
  }

  // --- The second pass ------------------------------------------------------------------

  lemma AgainNothing(local: Node, name: string, issues: seq<Issue>, peer: Node)
    requires peer.id != local.id && !PeerActive(peer, name) ==> Reported(issues, peer.title)
    ensures MissingAgain(local, name, issues, peer) == []
  {
    if PeerActive(peer, name) {
      var found := Find(Named(name), peer.arrays).value;
      assert NamedActive(name)(found);
    }
  }

  /** Once every peer without an active first copy is reported, the second pass adds nothing. */
  lemma {:induction false} SecondPassNothing(local: Node, name: string, issues: seq<Issue>, peers: seq<Node>)
    requires forall p :: p in peers && p.id != local.id && !PeerActive(p, name) ==> Reported(issues, p.title)
    ensures SecondPass(local, name, issues, peers) == issues
  {
    if peers == [] {
    } else {
      SecondPassNothing(local, name, issues, peers[..|peers| - 1]);
      AgainNothing(local, name, issues, peers[|peers| - 1]);
    }
  }

  lemma FirstPassReports(local: Node, peers: seq<Node>, name: string)
    requires LocalCopy(local, name) != []
    ensures forall p :: p in peers && p.id != local.id && !PeerActive(p, name) ==>
              Reported(FlatMap(MissingOn(local, name), peers), p.title)
  {
    forall p | p in peers && p.id != local.id && !PeerActive(p, name)
      ensures Reported(FlatMap(MissingOn(local, name), peers), p.title)
    {
      var i := MissingOnPeer(name, p.title);
      assert i in MissingOn(local, name)(p);
      FlatMapMember(MissingOn(local, name), peers, i);
    }
  }

  /** The second "missing on peer" pass never adds an issue, whatever the arrays and the peers are. */
  lemma SecondPassRedundant(local: Node, peers: seq<Node>, name: string)
    ensures Gathered(local, peers, name)
         == FlatMap(MissingOn(local, name), peers) + CompareCopies(name, Copies(local, peers, name))
  {
    if LocalCopy(local, name) != [] {
      FirstPassReports(local, peers, name);
      SecondPassNothing(local, name, FlatMap(MissingOn(local, name), peers), peers);
    }
  }

  // --- Removing repetitions loses nothing -----------------------------------------------

  ghost predicate AllCoded(s: seq<Issue>) { forall i :: i in s ==> !i.MissingUncoded? }

  lemma {:induction false} PutCoded(s: seq<Issue>, x: Issue)
    requires AllCoded(s) && !x.MissingUncoded?
    ensures Put(s, x) == if x in s then s else s + [x]
  {
    if s == [] {
    } else if s[0] == x {
    } else {
      PutCoded(s[1..], x);
      assert s == [s[0]] + s[1..];
    }
  }

  /** Without the uncoded issue, the keyed map keeps exactly the first of every repeated issue. */
  lemma {:induction false} ByKeyCoded(s: seq<Issue>)
    requires AllCoded(s)
    ensures ByKey(s) == Dedup(s)
  {
    if s == [] {
    } else {
      assert s == s[..|s| - 1] + [s[|s| - 1]];
      ByKeyCoded(s[..|s| - 1]);
      PutCoded(ByKey(s[..|s| - 1]), s[|s| - 1]);
    }
  }

  lemma CompareCoded(name: string, copies: seq<Copy>)
    ensures AllCoded(CompareCopies(name, copies))
  {
    var active := Filter(ActiveCopy(), copies);
    if active != [] {
      forall i | i in CompareCopies(name, copies) ensures !i.MissingUncoded? {
        FlatMapMember(CopyIssues(name, active[0].snapshot), active[1..], i);
        var n :| n in active[1..] && i in CopyIssues(name, active[0].snapshot)(n);
        CopyCoded(name, active[0].snapshot, n);
      }
    }
  }

  lemma CopyCoded(name: string, a: Snapshot, n: Copy)
    ensures AllCoded(CopyIssues(name, a)(n))
  {
    assert AllCoded(LayoutIssues(name, a, n));
    assert AllCoded(ConditionIssues(name, a, n));
  }

  /** The issues of a result are the distinct gathered ones: none is lost to another with its key. */
  lemma IssuesExact(local: Node, peers: seq<Node>, name: string)
    ensures ResultOf(local, peers)(name).issues
         == Dedup(FlatMap(MissingOn(local, name), peers) + CompareCopies(name, Copies(local, peers, name)))
  {
    SecondPassRedundant(local, peers, name);
    forall i | i in FlatMap(MissingOn(local, name), peers) ensures !i.MissingUncoded? {
      FlatMapMember(MissingOn(local, name), peers, i);
    }
    CompareCoded(name, Copies(local, peers, name));
    ByKeyCoded(Gathered(local, peers, name));
  }

  // --- The verdict ----------------------------------------------------------------------

  ghost predicate LocalActive(local: Node, name: string) {
    exists s :: s in local.arrays && s.name == name && IsActive(s)
  }

  ghost predicate NoneMissing(local: Node, peers: seq<Node>, name: string) {
    forall p :: p in peers && p.id != local.id ==> PeerActive(p, name)
  }

  lemma LocalCopyExact(local: Node, name: string)
    ensures LocalCopy(local, name) != [] <==> LocalActive(local, name)
  {
    if LocalActive(local, name) {
      var s :| s in local.arrays && s.name == name && IsActive(s);
      assert NamedActive(name)(s);
    }
  }

  lemma MissingExact(local: Node, peers: seq<Node>, name: string)
    ensures FlatMap(MissingOn(local, name), peers) == []
       <==> (LocalActive(local, name) ==> NoneMissing(local, peers, name))
  {
    LocalCopyExact(local, name);
    FlatMapEmpty(MissingOn(local, name), peers);
  }

  lemma DedupEmpty<T(!new)>(s: seq<T>)
    ensures Dedup(s) == [] <==> s == []
  {
    if s != [] {
      assert s[0] in Dedup(s);
    }
  }

  /** Any array: symmetric exactly when no peer misses a locally active array and all active copies
      agree with the first. */
  lemma SymmetricExact(local: Node, peers: seq<Node>, name: string)
    ensures ResultOf(local, peers)(name).symmetric
       <==> (LocalActive(local, name) ==> NoneMissing(local, peers, name))
            && ReferenceAgrees(Copies(local, peers, name))
  {
    var missing, differing := FlatMap(MissingOn(local, name), peers), CompareCopies(name, Copies(local, peers, name));
    IssuesExact(local, peers, name);
    MissingExact(local, peers, name);
    CompareExact(local, peers, name);
    DedupEmpty(missing + differing);
  }

  lemma PeerCopies(local: Node, peers: seq<Node>, name: string, p: Node)
    requires p in peers && p.id != local.id && PeerActive(p, name)
    ensures Copy(p.id, p.title, Find(Named(name), p.arrays).value) in FlatMap(PeerCopy(local, name), peers)
  {
    var c := Copy(p.id, p.title, Find(Named(name), p.arrays).value);
    assert c in PeerCopy(local, name)(p);
    FlatMapMember(PeerCopy(local, name), peers, c);
  }

  ghost predicate AllAgreeWith(a: Snapshot, local: Node, peers: seq<Node>, name: string) {
    forall p :: p in peers && p.id != local.id && PeerActive(p, name) ==>
                  Agrees(a, Find(Named(name), p.arrays).value)
  }

  lemma ReferenceIsLocal(local: Node, peers: seq<Node>, name: string)
    requires LocalActive(local, name)
    ensures LocalCopy(local, name) != []
    ensures ReferenceAgrees(Copies(local, peers, name))
       <==> AllAgreeWith(LocalCopy(local, name)[0].snapshot, local, peers, name)
  {
    LocalCopyExact(local, name);
    var a := LocalCopy(local, name)[0].snapshot;
    var copies, rest := Copies(local, peers, name), FlatMap(PeerCopy(local, name), peers);
    assert copies[0].snapshot == a && copies[1..] == rest;
    if ReferenceAgrees(copies) {
      forall p | p in peers && p.id != local.id && PeerActive(p, name)
        ensures Agrees(a, Find(Named(name), p.arrays).value)
      {
        PeerCopies(local, peers, name, p);
        var i :| 0 <= i < |rest| && rest[i] == Copy(p.id, p.title, Find(Named(name), p.arrays).value);
        assert copies[i + 1] == rest[i];
      }
    }
    if AllAgreeWith(a, local, peers, name) {
      forall i | 0 < i < |copies| ensures Agrees(a, copies[i].snapshot) {
        assert copies[i] == rest[i - 1];
        FlatMapMember(PeerCopy(local, name), peers, rest[i - 1]);
      }
    }
  }

  /** A locally active array is reported symmetric exactly when on every other node the first array
      of that name is active and agrees with the local one. */
  lemma LocallyActiveExact(local: Node, peers: seq<Node>, name: string)
    requires LocalActive(local, name)
    ensures LocalCopy(local, name) != []
    ensures ResultOf(local, peers)(name).symmetric
       <==> NoneMissing(local, peers, name)
            && AllAgreeWith(LocalCopy(local, name)[0].snapshot, local, peers, name)
  {
    SymmetricExact(local, peers, name);
    ReferenceIsLocal(local, peers, name);
  }

  // --- The view from the other node -----------------------------------------------------

  ghost predicate UniqueArrays(n: Node) {
    forall i, j :: 0 <= i < j < |n.arrays| ==> n.arrays[i].name != n.arrays[j].name
  }

  lemma FirstIsActive(n: Node, name: string)
    requires UniqueArrays(n)
    ensures PeerActive(n, name) <==> LocalActive(n, name)
    ensures LocalActive(n, name) ==> Find(Named(name), n.arrays) == Find(NamedActive(name), n.arrays)
  {
    forall s | s in n.arrays && s.name == name
      ensures Find(Named(name), n.arrays) == Some(s)
      ensures IsActive(s) ==> Find(NamedActive(name), n.arrays) == Some(s)
    {
      var i :| 0 <= i < |n.arrays| && n.arrays[i] == s;
      FindFirst(Named(name), n.arrays, i);
      if IsActive(s) {
        FindFirst(NamedActive(name), n.arrays, i);
      }
    }
  }

  /** Agreement does not depend on which copy is the reference. */
  lemma AgreesSymmetric(a: Snapshot, b: Snapshot)
    ensures Agrees(a, b) <==> Agrees(b, a)
  {
  }

  lemma ActiveHere(x: Node, y: Node, name: string)
    requires x.id != y.id && LocalActive(x, name) && UniqueArrays(x) && UniqueArrays(y)
    ensures PeerActive(x, name)
    ensures ResultOf(x, [y])(name).symmetric
       <==> PeerActive(y, name)
            && Agrees(Find(Named(name), x.arrays).value, Find(Named(name), y.arrays).value)
  {
    LocallyActiveExact(x, [y], name);
    FirstIsActive(x, name);
    assert y in [y];
  }

  lemma ActiveThere(x: Node, y: Node, name: string)
    requires !LocalActive(x, name)
    ensures ResultOf(x, [y])(name).symmetric
  {
    SymmetricExact(x, [y], name);
    LocalCopyExact(x, name);
    assert [y][..0] == [];
    assert FlatMap(PeerCopy(x, name), [y]) == PeerCopy(x, name)(y);
  }

  /** Two nodes agree on the verdict exactly when both have the array active: one that is active on
      a single node is reported missing from there and symmetric from the other. */
  lemma TwoNodeViews(x: Node, y: Node, name: string)
    requires x.id != y.id && UniqueArrays(x) && UniqueArrays(y)
    requires LocalActive(x, name) || LocalActive(y, name)
    ensures (ResultOf(x, [y])(name).symmetric <==> ResultOf(y, [x])(name).symmetric)
       <==> LocalActive(x, name) && LocalActive(y, name)
  {
    FirstIsActive(x, name);
    FirstIsActive(y, name);
    if LocalActive(x, name) {
      ActiveHere(x, y, name);
    } else {
      ActiveThere(x, y, name);
    }
    if LocalActive(y, name) {
      ActiveHere(y, x, name);
    } else {
      ActiveThere(y, x, name);
    }
    if LocalActive(x, name) && LocalActive(y, name) {
      AgreesSymmetric(Find(Named(name), x.arrays).value, Find(Named(name), y.arrays).value);
    }
  }

  /** An array that only `x` has is reported missing from `x` and symmetric from `y`. */
  lemma OneSidedExample(x: Node, y: Node, s: Snapshot)
    requires x.id != y.id && x.arrays == [s] && y.arrays == [] && IsActive(s)
    ensures !ResultOf(x, [y])(s.name).symmetric && ResultOf(y, [x])(s.name).symmetric
  {
    assert x.arrays[0] in x.arrays;
    ActiveHere(x, y, s.name);
    ActiveThere(y, x, s.name);
  }

  // --- Shared identity ------------------------------------------------------------------

  /** The nodes whose arrays are compared: this one and the peers with another id. */
  ghost predicate Member(local: Node, peers: seq<Node>, n: Node) {
    n == local || (n in peers && n.id != local.id)
  }

  /** The first array of that name on the node is clean or active and has this non-empty UUID. */
  ghost predicate Holds(n: Node, name: string, uuid: string) {
    var found := Find(Named(name), n.arrays);
    && found.Some? && (found.value.state.Clean? || found.value.state.Active?)
    && found.value.uuid == Some(uuid) && uuid != ""
  }

  ghost predicate Conflict(local: Node, peers: seq<Node>, name: string) {
    exists n, m, u, v :: Member(local, peers, n) && Member(local, peers, m)
                         && Holds(n, name, u) && Holds(m, name, v) && u != v
  }

  ghost predicate Held(local: Node, peers: seq<Node>, name: string, uuid: string) {
    exists n :: Member(local, peers, n) && Holds(n, name, uuid)
  }

  lemma ReportHolds(n: Node, name: string, uuid: string)
    ensures (exists r :: r in ReportOf(n, name) && HasUuid()(r) && UuidOf()(r) == uuid) <==> Holds(n, name, uuid)
  {
    if Holds(n, name, uuid) {
      var r := ReportOf(n, name)[0];
      assert r in ReportOf(n, name) && HasUuid()(r) && UuidOf()(r) == uuid;
    }
  }

  lemma ReportedUuid(local: Node, peers: seq<Node>, name: string, r: Report)
    requires r in Reports(local, peers, name) && HasUuid()(r)
    ensures Held(local, peers, name, UuidOf()(r))
  {
    if r in ReportOf(local, name) {
      ReportHolds(local, name, UuidOf()(r));
      assert Member(local, peers, local);
    } else {
      FlatMapMember(PeerReport(local, name), peers, r);
      var p :| p in peers && r in PeerReport(local, name)(p);
      ReportHolds(p, name, UuidOf()(r));
      assert Member(local, peers, p);
    }
  }

  lemma HeldUuid(local: Node, peers: seq<Node>, name: string, n: Node, uuid: string) returns (r: Report)
    requires Member(local, peers, n) && Holds(n, name, uuid)
    ensures r in Reports(local, peers, name) && HasUuid()(r) && UuidOf()(r) == uuid
  {
    ReportHolds(n, name, uuid);
    r :| r in ReportOf(n, name) && HasUuid()(r) && UuidOf()(r) == uuid;
    if n != local {
      assert r in PeerReport(local, name)(n);
      FlatMapMember(PeerReport(local, name), peers, r);
    }
  }

  lemma UuidOfHolder(holders: seq<Report>, uuid: string)
    ensures uuid in Dedup(Map(UuidOf(), holders)) <==> exists r :: r in holders && UuidOf()(r) == uuid
  {
    var uuids := Map(UuidOf(), holders);
    if uuid in uuids {
      var i :| 0 <= i < |uuids| && uuids[i] == uuid;
      assert holders[i] in holders;
    }
    if r :| r in holders && UuidOf()(r) == uuid {
      var i :| 0 <= i < |holders| && holders[i] == r;
      assert uuids[i] == uuid;
    }
  }

  lemma UniqueUuidsExact(local: Node, peers: seq<Node>, name: string, uuid: string)
    ensures uuid in UniqueUuids(Reports(local, peers, name)) <==> Held(local, peers, name, uuid)
  {
    var holders := Holders(Reports(local, peers, name));
    UuidOfHolder(holders, uuid);
    if r :| r in holders && UuidOf()(r) == uuid {
      ReportedUuid(local, peers, name, r);
    }
    if Held(local, peers, name, uuid) {
      var n :| Member(local, peers, n) && Holds(n, name, uuid);
      var r := HeldUuid(local, peers, name, n, uuid);
      assert r in holders;
    }
  }

  lemma {:induction false} DedupShorter<T(!new)>(s: seq<T>)
    ensures |Dedup(s)| <= |s|
  {
    if s == [] {
    } else {
      DedupShorter(s[..|s| - 1]);
    }
  }

  /** Two distinct UUIDs need two nodes, so the test on the number of nodes never decides. */
  lemma NodeCountRedundant(reports: seq<Report>)
    ensures |UniqueUuids(reports)| <= |Holders(reports)|
  {
    DedupShorter(Map(UuidOf(), Holders(reports)));
  }

  lemma ManyDistinct<T(!new)>(s: seq<T>)
    requires NoDup(s)
    ensures |s| > 1 <==> exists x, y :: x in s && y in s && x != y
  {
    if |s| > 1 {
      assert s[0] in s && s[1] in s && s[0] != s[1];
    }
  }

  lemma MismatchMany(name: string, reports: seq<Report>)
    ensures MismatchFrom(name, reports) != [] <==> |UniqueUuids(reports)| > 1
  {
    NodeCountRedundant(reports);
  }

  lemma ConflictHeld(local: Node, peers: seq<Node>, name: string)
    ensures Conflict(local, peers, name)
       <==> exists u, v :: Held(local, peers, name, u) && Held(local, peers, name, v) && u != v
  {
    if u, v :| Held(local, peers, name, u) && Held(local, peers, name, v) && u != v {
      var n :| Member(local, peers, n) && Holds(n, name, u);
      var m :| Member(local, peers, m) && Holds(m, name, v);
    }
    if n, m, u, v :| Member(local, peers, n) && Member(local, peers, m)
                     && Holds(n, name, u) && Holds(m, name, v) && u != v {
      assert Held(local, peers, name, u) && Held(local, peers, name, v);
    }
  }

  lemma MismatchExact(local: Node, peers: seq<Node>, name: string)
    ensures MismatchOf(local, peers)(name) != [] <==> Conflict(local, peers, name)
  {
    var uuids := UniqueUuids(Reports(local, peers, name));
    MismatchMany(name, Reports(local, peers, name));
    ManyDistinct(uuids);
    ConflictHeld(local, peers, name);
    forall u ensures u in uuids <==> Held(local, peers, name, u) {
      UniqueUuidsExact(local, peers, name, u);
    }
  }

  ghost predicate Mentions(mismatches: seq<Mismatch>, name: string) {
    exists m :: m in mismatches && m.arrayName == name
  }

  lemma NameKnown(local: Node, peers: seq<Node>, name: string, n: Node, uuid: string)
    requires Member(local, peers, n) && Holds(n, name, uuid)
    ensures name in NamesIn(AllNames(), local, peers)
  {
    var s := Find(Named(name), n.arrays).value;
    var i :| 0 <= i < |n.arrays| && n.arrays[i] == s;
    assert AllNames()(n)[i] == name;
    if n != local {
      FlatMapMember(AllNames(), peers, name);
    }
  }

  lemma MismatchNamed(name: string, reports: seq<Report>, m: Mismatch)
    requires m in MismatchFrom(name, reports)
    ensures m.arrayName == name
  {
  }

  lemma MentionedConflict(local: Node, peers: seq<Node>, name: string)
    requires Mentions(UuidMismatches(local, peers), name)
    ensures MismatchOf(local, peers)(name) != []
  {
    var names := NamesIn(AllNames(), local, peers);
    var m :| m in UuidMismatches(local, peers) && m.arrayName == name;
    FlatMapMember(MismatchOf(local, peers), names, m);
    var other :| other in names && m in MismatchOf(local, peers)(other);
    MismatchNamed(other, Reports(local, peers, other), m);
  }

  lemma ConflictMentioned(local: Node, peers: seq<Node>, name: string)
    requires MismatchOf(local, peers)(name) != [] && Conflict(local, peers, name)
    ensures Mentions(UuidMismatches(local, peers), name)
  {
    var n, u :| Member(local, peers, n) && Holds(n, name, u);
    NameKnown(local, peers, name, n, u);
    var m := MismatchOf(local, peers)(name)[0];
    assert m in MismatchOf(local, peers)(name);
    FlatMapMember(MismatchOf(local, peers), NamesIn(AllNames(), local, peers), m);
  }

  /** In shared-identity mode a mismatch is reported for an array exactly when two nodes hold clean
      or active copies with different UUIDs. */
  lemma SharedIdentityExact(local: Node, peers: seq<Node>, name: string)
    ensures Mentions(UuidMismatches(local, peers), name) <==> Conflict(local, peers, name)
  {
    MismatchExact(local, peers, name);
    if Mentions(UuidMismatches(local, peers), name) {
      MentionedConflict(local, peers, name);
    }
    if Conflict(local, peers, name) {
      ConflictMentioned(local, peers, name);
    }
  }

  /** The mismatches do not depend on which node is the local one. */
  lemma SharedIdentityAnyNode(x: Node, others: seq<Node>, y: Node, rest: seq<Node>, name: string)
    requires forall n :: Member(x, others, n) <==> Member(y, rest, n)
    ensures Mentions(UuidMismatches(x, others), name) <==> Mentions(UuidMismatches(y, rest), name)
  {
    SharedIdentityExact(x, others, name);
    SharedIdentityExact(y, rest, name);
  }
}
