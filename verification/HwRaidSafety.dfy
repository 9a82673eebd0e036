/** Marking is safe, leaves other devices alone and is idempotent; disks of the inventory that a drive
    occupies stay eligible for nothing. */
module HwRaidSafety {
  import opened Sequences
  import opened Text
  import opened HwRaid

  /** The rows describe the same devices. */
  ghost predicate SameDevices(a: seq<Row>, b: seq<Row>) {
    |a| == |b| && forall i :: 0 <= i < |a| ==>
      a[i].path == b[i].path && a[i].name == b[i].name && a[i].kind == b[i].kind && a[i].parent == b[i].parent
  }

  lemma SameIndex(a: seq<Row>, b: seq<Row>, target: string)
    requires SameDevices(a, b)
    ensures IndexAt(a, target) == IndexAt(b, target)
  {
    forall i | 0 <= i < |a| ensures IsAt(a[i], target) <==> IsAt(b[i], target) {
    }
  }

  lemma SameTarget(d: Drive, a: seq<Row>, b: seq<Row>)
    requires SameDevices(a, b)
    ensures Target(d, a) == Target(d, b)
  {
    if OsPath(d.ld).Some? && NormalizeDevPath(OsPath(d.ld).value).Some? {
      SameIndex(a, b, NormalizeDevPath(OsPath(d.ld).value).value);
    }
  }

  lemma {:induction false} MarkKeepsDevices(drives: seq<Drive>, rows: seq<Row>)
    ensures SameDevices(MarkAll(drives, rows), rows)
  {
    if drives == [] {
    } else {
      MarkKeepsDevices(drives[..|drives| - 1], rows);
    }
  }

  // --- What marking does to one row -----------------------------------------------------

  ghost predicate Hits(drives: seq<Drive>, rows: seq<Row>, i: nat) {
    exists d :: d in drives && Target(d, rows) == i
  }

  /** The last drive that occupies the row: its identifiers are the ones that stay. */
  function LastHit(drives: seq<Drive>, rows: seq<Row>, i: nat): Option<Drive> {
    if drives == [] then None
    else if Target(drives[|drives| - 1], rows) == i then Some(drives[|drives| - 1])
    else LastHit(drives[..|drives| - 1], rows, i)
  }

  lemma {:induction false} HitExact(drives: seq<Drive>, rows: seq<Row>, i: nat)
    ensures LastHit(drives, rows, i).Some? <==> Hits(drives, rows, i)
  {
    if drives == [] {
    } else {
      HitExact(drives[..|drives| - 1], rows, i);
      assert drives == drives[..|drives| - 1] + [drives[|drives| - 1]];
      assert drives[|drives| - 1] in drives;
    }
  }

  lemma {:induction false} MarkExact(drives: seq<Drive>, rows: seq<Row>, i: nat)
    requires i < |rows|
    ensures MarkAll(drives, rows)[i]
         == var hit := LastHit(drives, rows, i); if hit.Some? then MarkRow(rows[i], hit.value) else rows[i]
  {
    if drives == [] {
    } else {
      var init, last := drives[..|drives| - 1], drives[|drives| - 1];
      MarkExact(init, rows, i);
      MarkKeepsDevices(init, rows);
      SameTarget(last, MarkAll(init, rows), rows);
    }
  }

  // --- The result, row by row -----------------------------------------------------------

  lemma ApplyRow(drives: seq<Drive>, rows: seq<Row>, i: nat)
    requires i < |rows|
    ensures Apply(drives, rows)[i] == PrepRow(drives, RestrictRow(MarkAll(drives, rows), MarkAll(drives, rows)[i]))
  {
    var marked := MarkAll(drives, rows);
    assert Map(RestrictIn(marked), marked)[i] == RestrictIn(marked)(marked[i]);
  }

  /** A device ends up marked exactly when it was marked before or a logical drive occupies it. */
  lemma MarkedExact(drives: seq<Drive>, rows: seq<Row>, i: nat)
    requires i < |rows|
    ensures IsMarked(Apply(drives, rows)[i]) <==> IsMarked(rows[i]) || Hits(drives, rows, i)
    ensures IsMarked(Apply(drives, rows)[i]) <==> IsMarked(MarkAll(drives, rows)[i])
  {
    ApplyRow(drives, rows, i);
    MarkExact(drives, rows, i);
    HitExact(drives, rows, i);
  }

  ghost predicate DistinctPaths(rows: seq<Row>) {
    forall i, j :: 0 <= i < j < |rows| ==> rows[i].path != rows[j].path
  }

  lemma {:induction false} LastAtExact(rows: seq<Row>, j: nat)
    requires DistinctPaths(rows) && j < |rows|
    ensures LastAt(rows, rows[j].path) == Some(rows[j])
  {
    if j == |rows| - 1 {
    } else {
      LastAtExact(rows[..|rows| - 1], j);
    }
  }

  lemma {:induction false} LastAtSome(rows: seq<Row>, path: string) returns (j: nat)
    requires LastAt(rows, path).Some?
    ensures j < |rows| && rows[j] == LastAt(rows, path).value && rows[j].path == path
  {
    j := |rows| - 1;
    if rows[j].path == path {
    } else {
      j := LastAtSome(rows[..|rows| - 1], path);
    }
  }

  /** The device is a partition of one that ends up marked. */
  ghost predicate OnMarkedParent(drives: seq<Drive>, rows: seq<Row>, i: nat)
    requires i < |rows|
  {
    rows[i].kind == Part && rows[i].parent != ""
    && exists j: nat :: j < |rows| && rows[j].path == ParentPath(rows[i]) && IsMarked(Apply(drives, rows)[j])
  }

  lemma ParentExact(drives: seq<Drive>, rows: seq<Row>, i: nat)
    requires DistinctPaths(rows) && i < |rows|
    ensures ParentMarked(MarkAll(drives, rows), MarkAll(drives, rows)[i]) <==> OnMarkedParent(drives, rows, i)
  {
    var marked := MarkAll(drives, rows);
    MarkKeepsDevices(drives, rows);
    assert DistinctPaths(marked);
    if ParentMarked(marked, marked[i]) {
      var j := LastAtSome(marked, ParentPath(marked[i]));
      MarkedExact(drives, rows, j);
    }
    if OnMarkedParent(drives, rows, i) {
      var j: nat :| j < |rows| && rows[j].path == ParentPath(rows[i]) && IsMarked(Apply(drives, rows)[j]);
      MarkedExact(drives, rows, j);
      LastAtExact(marked, j);
    }
  }

  /** With distinct paths, a device stays eligible for MD exactly when it was eligible, nothing marks
      it, and it is no partition of a marked device. */
  lemma MdEligibleExact(drives: seq<Drive>, rows: seq<Row>, i: nat)
    requires DistinctPaths(rows) && i < |rows|
    ensures Apply(drives, rows)[i].eligibleForMd
       <==> rows[i].eligibleForMd && !IsMarked(rows[i]) && !Hits(drives, rows, i) && !OnMarkedParent(drives, rows, i)
  {
    ApplyRow(drives, rows, i);
    ParentExact(drives, rows, i);
    MarkedExact(drives, rows, i);
    MarkExact(drives, rows, i);
  }

  /** A device stays eligible for partition preparation exactly when it was, and it is no disk whose
      own normalized path is the path of a logical drive. */
  lemma PrepEligibleExact(drives: seq<Drive>, rows: seq<Row>, i: nat)
    requires i < |rows|
    ensures Apply(drives, rows)[i].eligibleForPrep
       <==> rows[i].eligibleForPrep && !(rows[i].kind == Disk && DriveAt(drives, rows[i].path))
  {
    ApplyRow(drives, rows, i);
    MarkExact(drives, rows, i);
  }

  /** A device that no drive occupies or names, that was not marked, and whose parent is not marked,
      is left exactly as it was. */
  lemma UnrelatedUnchanged(drives: seq<Drive>, rows: seq<Row>, i: nat)
    requires DistinctPaths(rows) && i < |rows|
    requires !IsMarked(rows[i]) && !Hits(drives, rows, i) && !OnMarkedParent(drives, rows, i)
    requires !DriveAt(drives, rows[i].path)
    ensures Apply(drives, rows)[i] == rows[i]
  {
    ApplyRow(drives, rows, i);
    ParentExact(drives, rows, i);
    MarkExact(drives, rows, i);
    HitExact(drives, rows, i);
  }

  // --- Applying twice -------------------------------------------------------------------

  lemma ApplyKeepsDevices(drives: seq<Drive>, rows: seq<Row>)
    ensures SameDevices(Apply(drives, rows), rows)
  {
    MarkKeepsDevices(drives, rows);
    forall i | 0 <= i < |rows|
      ensures Apply(drives, rows)[i].path == rows[i].path && Apply(drives, rows)[i].name == rows[i].name
              && Apply(drives, rows)[i].kind == rows[i].kind && Apply(drives, rows)[i].parent == rows[i].parent
    {
      ApplyRow(drives, rows, i);
    }
  }

  lemma {:induction false} SameLastHit(drives: seq<Drive>, a: seq<Row>, b: seq<Row>, i: nat)
    requires SameDevices(a, b)
    ensures LastHit(drives, a, i) == LastHit(drives, b, i)
  {
    if drives == [] {
    } else {
      SameTarget(drives[|drives| - 1], a, b);
      SameLastHit(drives[..|drives| - 1], a, b, i);
    }
  }

  /** Marking an already treated row again changes nothing. */
  lemma MarkAgain(drives: seq<Drive>, rows: seq<Row>, i: nat)
    requires i < |rows|
    ensures MarkAll(drives, Apply(drives, rows))[i] == Apply(drives, rows)[i]
  {
    var once := Apply(drives, rows);
    MarkExact(drives, once, i);
    ApplyKeepsDevices(drives, rows);
    SameLastHit(drives, once, rows, i);
    MarkExact(drives, rows, i);
    ApplyRow(drives, rows, i);
  }

  lemma {:induction false} SameParent(a: seq<Row>, b: seq<Row>, path: string)
    requires SameDevices(a, b) && forall i :: 0 <= i < |a| ==> (IsMarked(a[i]) <==> IsMarked(b[i]))
    ensures LastAt(a, path).Some? <==> LastAt(b, path).Some?
    ensures LastAt(a, path).Some? ==> (IsMarked(LastAt(a, path).value) <==> IsMarked(LastAt(b, path).value))
  {
    if a == [] {
    } else if a[|a| - 1].path == path {
    } else {
      SameParent(a[..|a| - 1], b[..|b| - 1], path);
    }
  }

  lemma RestrictAgain(drives: seq<Drive>, a: seq<Row>, b: seq<Row>, r: Row)
    requires SameDevices(a, b) && forall i :: 0 <= i < |a| ==> (IsMarked(a[i]) <==> IsMarked(b[i]))
    ensures var once := PrepRow(drives, RestrictRow(a, r)); PrepRow(drives, RestrictRow(b, once)) == once
  {
    SameParent(a, b, ParentPath(r));
  }

  /** Applying the restrictions a second time changes nothing. */
  lemma ApplyIdempotent(drives: seq<Drive>, rows: seq<Row>)
    ensures Apply(drives, Apply(drives, rows)) == Apply(drives, rows)
  {
    var once, marked := Apply(drives, rows), MarkAll(drives, rows);
    var again := MarkAll(drives, once);
    MarkKeepsDevices(drives, rows);
    ApplyKeepsDevices(drives, rows);
    forall i | 0 <= i < |rows| ensures again[i] == once[i] && (IsMarked(again[i]) <==> IsMarked(marked[i])) {
      MarkAgain(drives, rows, i);
      MarkedExact(drives, rows, i);
    }
    assert again == once;
    forall i | 0 <= i < |rows| ensures Apply(drives, once)[i] == once[i] {
      ApplyRow(drives, once, i);
      ApplyRow(drives, rows, i);
      RestrictAgain(drives, marked, once, marked[i]);
    }
  }

  // --- Normal forms of paths ------------------------------------------------------------

  lemma Plain(path: string)
    requires StartsWith(path, "/dev/") && !IsSpace(path[|path| - 1])
    ensures NormalizeDevPath(path) == Some(path)
  {
    assert path[0] == '/';
    assert TrimStart(path) == path;
    assert TrimEnd(path) == path;
  }

  lemma {:induction false} TrimEndTail(s: string)
    ensures TrimEnd(s) == "" || !IsSpace(TrimEnd(s)[|TrimEnd(s)| - 1])
  {
    if s == "" {
    } else if !IsSpace(s[|s| - 1]) {
    } else {
      TrimEndTail(s[..|s| - 1]);
    }
  }

  /** Normalizing twice is normalizing once, exactly for paths that are not given as "disk/by-id...". */
  lemma NormalizeStable(p: string)
    requires NormalizeDevPath(p).Some?
    ensures NormalizeDevPath(NormalizeDevPath(p).value) == NormalizeDevPath(p) <==> !StartsWith(Trim(p), "disk/by-id")
  {
    var t := Trim(p);
    TrimEndTail(TrimStart(p));
    var n := NormalizeDevPath(p).value;
    assert n[|n| - 1] == t[|t| - 1];
    if StartsWith(t, "disk/by-id") {
      assert n[0] == '/' && n[1] == 'd' && n[2] == 'i';
      assert TrimStart(n) == n && TrimEnd(n) == n;
    } else {
      Plain(n);
    }
  }

  // --- The disks that the inventory lists -----------------------------------------------

  /** A row as the inventory lists a disk: its path is its name under "/dev/". */
  predicate InventoryDisk(r: Row) {
    && r.kind == Disk && r.path == "/dev/" + r.name
    && r.name != "" && r.name[0] != '/' && !IsSpace(r.name[|r.name| - 1])
  }

  /** The path of a drive is its own normal form, unless it was given as "disk/by-id...". */
  lemma DriveNormal(ld: LogicalDrive)
    requires OsPath(ld).Some?
    ensures var os := OsPath(ld).value;
            NormalizeDevPath(os) == Some(os) || (NormalizeDevPath(os) == Some("/dev/" + os) && StartsWith(os, "/disk"))
  {
    var p := if NormalizeDevPath(ld.osDevicePath).Some? then ld.osDevicePath
             else if NormalizeDevPath(ld.devicePath).Some? then ld.devicePath else ld.scsiDevice;
    DriveNormalFrom(p);
  }

  lemma DriveNormalFrom(p: string)
    requires NormalizeDevPath(p).Some?
    ensures var os := NormalizeDevPath(p).value;
            NormalizeDevPath(os) == Some(os) || (NormalizeDevPath(os) == Some("/dev/" + os) && StartsWith(os, "/disk"))
  {
    var os, t := NormalizeDevPath(p).value, Trim(p);
    NormalizeStable(p);
    if StartsWith(t, "disk/by-id") {
      TrimEndTail(TrimStart(p));
      assert os[|os| - 1] == t[|t| - 1];
      assert os[..5] == "/disk" && !IsSpace(os[0]);
      assert TrimStart(os) == os && TrimEnd(os) == os;
      assert !StartsWith(os, "/dev/") && !StartsWith(os, "disk/by-id");
    }
  }

  lemma AtInventoryDisk(r: Row, target: string)
    requires InventoryDisk(r) && StartsWith(target, "/dev/")
    ensures NormalizeDevPath(r.path) == Some(r.path)
    ensures IsAt(r, target) <==> target == r.path
  {
    assert r.path[..5] == "/dev/";
    Plain(r.path);
    assert target == "/dev/" + target[5..];
  }

  lemma NotBelowDev(r: Row, os: string)
    requires InventoryDisk(r) && StartsWith(os, "/disk")
    ensures !IsAt(r, "/dev/" + os)
  {
    var target := "/dev/" + os;
    assert target[..5] == "/dev/" && target[5] == '/' && r.path[5] == r.name[0];
    AtInventoryDisk(r, target);
  }

  lemma AtNormal(r: Row, os: string)
    requires InventoryDisk(r) && NormalizeDevPath(os) == Some(os) && IsAt(r, os)
    ensures os == r.path
  {
    var t := Trim(os);
    assert StartsWith(os, "/dev/") by {
      assert t == os || ("/" + t)[1] == t[0] || ("/dev/" + t)[..5] == "/dev/";
    }
    AtInventoryDisk(r, os);
  }

  lemma HitIsAtPath(d: Drive, rows: seq<Row>, i: nat)
    requires i < |rows| && InventoryDisk(rows[i]) && Target(d, rows) == i
    ensures OsPath(d.ld) == Some(rows[i].path)
  {
    var os := OsPath(d.ld).value;
    DriveNormal(d.ld);
    if NormalizeDevPath(os) == Some(os) {
      AtNormal(rows[i], os);
    } else {
      NotBelowDev(rows[i], os);
    }
  }

  lemma AtPathHits(d: Drive, rows: seq<Row>, i: nat)
    requires i < |rows| && InventoryDisk(rows[i]) && OsPath(d.ld) == Some(rows[i].path)
    requires forall j :: 0 <= j < i ==> !IsAt(rows[j], rows[i].path)
    ensures Target(d, rows) == i
  {
    AtInventoryDisk(rows[i], rows[i].path);
  }

  /** No disk of the inventory that a logical drive occupies stays eligible for MD or for partition
      preparation. If no earlier row is at its path, the drive that occupies it is also the only thing
      that takes the eligibility for preparation away. */
  lemma InventoryDiskExact(drives: seq<Drive>, rows: seq<Row>, i: nat)
    requires i < |rows| && InventoryDisk(rows[i])
    ensures Hits(drives, rows, i) ==> !Apply(drives, rows)[i].eligibleForMd && !Apply(drives, rows)[i].eligibleForPrep
    ensures (forall j :: 0 <= j < i ==> !IsAt(rows[j], rows[i].path)) ==>
              (Apply(drives, rows)[i].eligibleForPrep <==> rows[i].eligibleForPrep && !Hits(drives, rows, i))
  {
    PrepEligibleExact(drives, rows, i);
    AtInventoryDisk(rows[i], rows[i].path);
    if Hits(drives, rows, i) {
      var d :| d in drives && Target(d, rows) == i;
      HitIsAtPath(d, rows, i);
      HitBlocksMd(drives, rows, i);
    }
    if (forall j :: 0 <= j < i ==> !IsAt(rows[j], rows[i].path)) && DriveAt(drives, rows[i].path) {
      var d :| d in drives && OsPath(d.ld) == Some(rows[i].path);
      AtPathHits(d, rows, i);
    }
  }

  lemma HitBlocksMd(drives: seq<Drive>, rows: seq<Row>, i: nat)
    requires i < |rows| && Hits(drives, rows, i)
    ensures !Apply(drives, rows)[i].eligibleForMd
  {
    ApplyRow(drives, rows, i);
    MarkedExact(drives, rows, i);
  }

  // --- A disk that is not listed under its name -----------------------------------------

  /** What the form of the paths is needed for: a disk that a drive occupies by name alone keeps its
      eligibility for partition preparation. */
  lemma NameOnlyKeepsPrep(disk: Row, drive: Drive, os: string)
    requires disk.kind == Disk && disk.eligibleForPrep
    requires OsPath(drive.ld) == Some(os) && NormalizeDevPath(os) == Some(os)
    requires disk.name == WithoutDev(os) && NormalizeDevPath(disk.path) != Some(os)
    ensures Hits([drive], [disk], 0) && IsMarked(Apply([drive], [disk])[0])
    ensures Apply([drive], [disk])[0].eligibleForPrep
  {
    assert IsAt(disk, os);
    assert Target(drive, [disk]) == 0;
    assert drive in [drive];
    MarkedExact([drive], [disk], 0);
    PrepEligibleExact([drive], [disk], 0);
  }

  /** For instance a disk named "sdb" with the path "/dev/a", as no inventory lists it. */
  lemma NameOnlyExample(disk: Row, drive: Drive)
    requires disk.kind == Disk && disk.eligibleForPrep && disk.name == "sdb" && disk.path == "/dev/a"
    requires drive.ld.osDevicePath == "/dev/sdb"
    ensures IsMarked(Apply([drive], [disk])[0]) && Apply([drive], [disk])[0].eligibleForPrep
  {
    Plain("/dev/sdb");
    Plain("/dev/a");
    assert WithoutDev("/dev/sdb") == "sdb";
    NameOnlyKeepsPrep(disk, drive, "/dev/sdb");
  }
}
