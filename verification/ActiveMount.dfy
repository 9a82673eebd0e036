/** Choosing the FILEIO filesystem to work on, `utils/fs-active-filesystem.ts` and
    `utils/fs-mount-classifier.ts`. */
module ActiveMount {
  import opened Sequences
  import opened Collation
  import opened Text

  datatype Role = FileioData | System | OtherRole

  /** A mount. `ready` says that its status is "mounted"; `details` stands for the other fields. */
  datatype Mount = Mount(
    mountPoint: string, freeBytes: int, mounted: bool, ready: bool, role: Role, details: string)

  // --- Classification -------------------------------------------------------------------

  const SYSTEM_MOUNT_POINTS: set<string> := {"/mnt/root", "/mnt/ram"}

  predicate Below(path: string, parent: string) { StartsWith(path, parent + "/") }

  predicate IsUnderVdiskRoots(path: string, roots: seq<string>) {
    exists r :: r in roots && (path == r || Below(path, r))
  }

  predicate IsSystemPath(path: string) {
    path == "/" || StartsWith(path, "/proc") || StartsWith(path, "/sys") || path in SYSTEM_MOUNT_POINTS
  }

  method ClassifyMountRole(path: string, roots: seq<string>, files: seq<string>) returns (role: Role)
    ensures role == System <==> IsSystemPath(path)
    ensures role == FileioData
       <==> !IsSystemPath(path) && (IsUnderVdiskRoots(path, roots) || exists f :: f in files && Below(f, path))
  {
    if IsSystemPath(path) {
      return System;
    }
    if IsUnderVdiskRoots(path, roots) {
      return FileioData;
    }
    for i := 0 to |files|
      invariant forall j :: 0 <= j < i ==> !Below(files[j], path)
    {
      if Below(files[i], path) {
        return FileioData;
      }
    }
    return OtherRole;
  }

  // --- The choice -----------------------------------------------------------------------

  function IsRelevant(): Mount -> bool { (m: Mount) => m.mounted && m.role == FileioData }
  function IsMounted(): Mount -> bool { (m: Mount) => m.mounted && (m.ready || m.mounted) }

  function Relevant(mounts: seq<Mount>): seq<Mount> { Filter(IsRelevant(), Filter(IsMounted(), mounts)) }

  function At(path: string): Mount -> bool { (m: Mount) => m.mountPoint == path }

  /** A mount somebody asked for, if it is there. A blank request counts as none. */
  function Requested(relevant: seq<Mount>, wanted: Option<string>): Option<Mount> {
    if wanted.None? || Trim(wanted.value) == "" then None
    else Find(At(Trim(wanted.value)), relevant)
  }

  predicate HasChild(relevant: seq<Mount>, path: string) {
    exists m :: m in relevant && m.mountPoint != path && Below(m.mountPoint, path)
  }

  predicate HasRoomierChild(relevant: seq<Mount>, m: Mount) {
    exists o :: o in relevant && o.mountPoint != m.mountPoint && Below(o.mountPoint, m.mountPoint)
                && o.freeBytes > m.freeBytes
  }

  function Slashes(path: string): nat {
    if path == "" then 0 else (if path[0] == '/' then 1 else 0) + Slashes(path[1..])
  }

  function IsCandidate(roots: seq<string>, relevant: seq<Mount>): Mount -> bool {
    (m: Mount) =>
      var isBareRoot := m.mountPoint in roots;
      if isBareRoot && HasChild(relevant, m.mountPoint) then false
      else if isBareRoot && IsUnderVdiskRoots(m.mountPoint, roots) && Slashes(m.mountPoint) + 1 <= 3
      then !HasRoomierChild(relevant, m)
      else true
  }

  function Candidates(roots: seq<string>, relevant: seq<Mount>): seq<Mount> {
    Filter(IsCandidate(roots, relevant), relevant)
  }

  /** More free space first, then the longer path, then the collation of the paths. */
  function Ahead(le: (string, string) -> bool): (Mount, Mount) -> bool {
    (a: Mount, b: Mount) =>
      a.freeBytes > b.freeBytes
      || (a.freeBytes == b.freeBytes
          && (|a.mountPoint| > |b.mountPoint|
              || (|a.mountPoint| == |b.mountPoint| && le(a.mountPoint, b.mountPoint))))
  }

  /** `pickActiveFileioMount`. */
  function Pick(le: (string, string) -> bool, roots: seq<string>, mounts: seq<Mount>,
                newly: Option<string>, preferred: Option<string>): Option<Mount>
  {
    var relevant := Relevant(mounts);
    if relevant == [] then None
    else if Requested(relevant, newly).Some? then Requested(relevant, newly)
    else if Requested(relevant, preferred).Some? then Requested(relevant, preferred)
    else
      var candidates := Candidates(roots, relevant);
      var pool := if candidates != [] then candidates else relevant;
      Some(Sort(Ahead(le), pool)[0])
  }

  // --- The filter -----------------------------------------------------------------------

  /** The second clause about bare roots never rejects a mount the first one lets through. */
  lemma CandidateExact(roots: seq<string>, relevant: seq<Mount>, m: Mount)
    ensures IsCandidate(roots, relevant)(m) <==> !(m.mountPoint in roots && HasChild(relevant, m.mountPoint))
  {
  }

  lemma LongestPath(relevant: seq<Mount>) returns (m: Mount)
    requires relevant != []
    ensures m in relevant && forall o :: o in relevant ==> |o.mountPoint| <= |m.mountPoint|
  {
    m := relevant[0];
    for i := 1 to |relevant|
      invariant m in relevant && forall j :: 0 <= j < i ==> |relevant[j].mountPoint| <= |m.mountPoint|
    {
      if |relevant[i].mountPoint| > |m.mountPoint| {
        m := relevant[i];
      }
    }
  }

  /** A mount with a longest path has no child, so some candidate is always left. */
  lemma SomeCandidate(roots: seq<string>, relevant: seq<Mount>)
    requires relevant != []
    ensures Candidates(roots, relevant) != []
  {
    var m := LongestPath(relevant);
    CandidateExact(roots, relevant, m);
    assert m in Candidates(roots, relevant);
  }

  // --- The order ------------------------------------------------------------------------

  lemma AheadPreorder(le: (string, string) -> bool)
    requires TotalOrder(le)
    ensures TotalPreorder(Ahead(le))
  {
    var ahead := Ahead(le);
    forall x, y ensures ahead(x, y) || ahead(y, x) {
      assert le(x.mountPoint, y.mountPoint) || le(y.mountPoint, x.mountPoint);
    }
    forall x, y, z | ahead(x, y) && ahead(y, z) ensures ahead(x, z) {
      assert le(x.mountPoint, y.mountPoint) && le(y.mountPoint, z.mountPoint) ==> le(x.mountPoint, z.mountPoint);
    }
  }

  lemma SortedHead(le: (string, string) -> bool, pool: seq<Mount>)
    requires TotalOrder(le) && pool != []
    ensures Sort(Ahead(le), pool)[0] in pool
    ensures forall m :: m in pool ==> Ahead(le)(Sort(Ahead(le), pool)[0], m)
  {
    var sorted := Sort(Ahead(le), pool);
    AheadPreorder(le);
    SortSorted(Ahead(le), pool);
    SortElements(Ahead(le), pool);
    assert sorted[0] in sorted;
    forall m | m in pool ensures Ahead(le)(sorted[0], m) {
      assert m in sorted;
      assert Ahead(le)(m, m);
    }
  }

  /** What is chosen when nobody's request is met: a best one of the mounts that are no bare root
      above another mount. */
  ghost predicate Best(le: (string, string) -> bool, roots: seq<string>, relevant: seq<Mount>, m: Mount) {
    && m in relevant && !(m.mountPoint in roots && HasChild(relevant, m.mountPoint))
    && forall o :: o in relevant && !(o.mountPoint in roots && HasChild(relevant, o.mountPoint)) ==>
                     Ahead(le)(m, o)
  }

  ghost predicate Unrequested(mounts: seq<Mount>, newly: Option<string>, preferred: Option<string>) {
    Requested(Relevant(mounts), newly).None? && Requested(Relevant(mounts), preferred).None?
  }

  lemma PickBest(le: (string, string) -> bool, roots: seq<string>, mounts: seq<Mount>,
                 newly: Option<string>, preferred: Option<string>)
    requires TotalOrder(le) && Relevant(mounts) != [] && Unrequested(mounts, newly, preferred)
    ensures Pick(le, roots, mounts, newly, preferred).Some?
    ensures Best(le, roots, Relevant(mounts), Pick(le, roots, mounts, newly, preferred).value)
  {
    var relevant := Relevant(mounts);
    var pool := Candidates(roots, relevant);
    SomeCandidate(roots, relevant);
    SortedHead(le, pool);
    forall m ensures m in pool <==> m in relevant && !(m.mountPoint in roots && HasChild(relevant, m.mountPoint)) {
      CandidateExact(roots, relevant, m);
    }
  }

  /** Unless it is asked for, a bare root is never chosen while another mount lies below it. */
  lemma BareRootAvoided(le: (string, string) -> bool, roots: seq<string>, mounts: seq<Mount>,
                        newly: Option<string>, preferred: Option<string>)
    requires TotalOrder(le) && Unrequested(mounts, newly, preferred)
    ensures var r := Pick(le, roots, mounts, newly, preferred);
            r.Some? ==> !(r.value.mountPoint in roots && HasChild(Relevant(mounts), r.value.mountPoint))
  {
    if Relevant(mounts) != [] {
      PickBest(le, roots, mounts, newly, preferred);
    }
  }

  // --- The order of the input does not matter -------------------------------------------

  ghost predicate DistinctPaths(relevant: seq<Mount>) {
    forall a, b :: a in relevant && b in relevant && a.mountPoint == b.mountPoint ==> a == b
  }

  lemma RequestedOrderFree(a: seq<Mount>, b: seq<Mount>, wanted: Option<string>)
    requires DistinctPaths(a) && forall m :: m in a <==> m in b
    ensures Requested(a, wanted) == Requested(b, wanted)
  {
    var x, y := Requested(a, wanted), Requested(b, wanted);
    assert x.Some? ==> x.value in a && x.value in b;
    assert y.Some? ==> y.value in b && y.value in a;
  }

  lemma BestUnique(le: (string, string) -> bool, roots: seq<string>, a: seq<Mount>, b: seq<Mount>, m: Mount, n: Mount)
    requires TotalOrder(le) && DistinctPaths(a) && forall o :: o in a <==> o in b
    requires Best(le, roots, a, m) && Best(le, roots, b, n)
    ensures m == n
  {
    forall path ensures HasChild(a, path) <==> HasChild(b, path) {
    }
    assert Ahead(le)(m, n) && Ahead(le)(n, m);
  }

  lemma RelevantElements(a: seq<Mount>, b: seq<Mount>)
    requires multiset(a) == multiset(b)
    ensures forall m :: m in Relevant(a) <==> m in Relevant(b)
  {
    SameMultisetSameElements(a, b);
  }

  /** With distinct mount points the choice does not depend on the order of the mounts. */
  lemma PickOrderFree(le: (string, string) -> bool, roots: seq<string>, a: seq<Mount>, b: seq<Mount>,
                      newly: Option<string>, preferred: Option<string>)
    requires TotalOrder(le) && multiset(a) == multiset(b) && DistinctPaths(Relevant(a))
    ensures Pick(le, roots, a, newly, preferred) == Pick(le, roots, b, newly, preferred)
  {
    RelevantElements(a, b);
    RequestedOrderFree(Relevant(a), Relevant(b), newly);
    RequestedOrderFree(Relevant(a), Relevant(b), preferred);
    assert Relevant(a) != [] ==> Relevant(a)[0] in Relevant(b);
    assert Relevant(b) != [] ==> Relevant(b)[0] in Relevant(a);
    if Relevant(a) != [] && Unrequested(a, newly, preferred) {
      PickBest(le, roots, a, newly, preferred);
      PickBest(le, roots, b, newly, preferred);
      BestUnique(le, roots, Relevant(a), Relevant(b), Pick(le, roots, a, newly, preferred).value,
                 Pick(le, roots, b, newly, preferred).value);
    }
  }

  /** Whatever is chosen is mounted FILEIO data, and something is chosen when there is any. A mount
      that is asked for wins, the newly created one before the preferred one. */
  lemma PickSound(le: (string, string) -> bool, roots: seq<string>, mounts: seq<Mount>,
                  newly: Option<string>, preferred: Option<string>)
    requires TotalOrder(le)
    ensures var r := Pick(le, roots, mounts, newly, preferred);
            && (r.None? <==> forall m :: m in mounts ==> !(m.mounted && m.role == FileioData))
            && (r.Some? ==> r.value in mounts && r.value.mounted && r.value.role == FileioData)
            && (Requested(Relevant(mounts), newly).Some? ==> r == Requested(Relevant(mounts), newly))
            && (Requested(Relevant(mounts), newly).None? && Requested(Relevant(mounts), preferred).Some?
                ==> r == Requested(Relevant(mounts), preferred))
  {
    var relevant := Relevant(mounts);
    assert forall m :: m in relevant <==> m in mounts && m.mounted && m.role == FileioData;
    if relevant != [] {
      assert relevant[0] in relevant;
      if Unrequested(mounts, newly, preferred) {
        PickBest(le, roots, mounts, newly, preferred);
      }
    }
  }
}
