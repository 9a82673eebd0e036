/** Marking block devices that hardware RAID volumes occupy, `utils/hw-raid-backend-eligibility.ts`. */
module HwRaid {
  import opened Sequences
  import opened Text

  const HARDWARE_RAID := "hardware_raid"
  const BLOCK_REASON := "in hardware RAID already: use LVM, FILEIO or SCST BLOCKIO"

  datatype Kind = Disk | Part | OtherKind

  /** A logical drive; absent paths are blank. */
  datatype LogicalDrive = LogicalDrive(id: string, osDevicePath: string, devicePath: string, scsiDevice: string)
  datatype Controller = Controller(id: string, model: string, drives: seq<LogicalDrive>)

  /** A logical drive with the controller it belongs to. */
  datatype Drive = Drive(controllerId: string, title: string, ld: LogicalDrive)

  /** The value of a block device. A blank `parent` stands for an absent one. */
  datatype Row = Row(
    path: string, name: string, kind: Kind, parent: string,
    usedBy: seq<string>, eligibleForMd: bool, mdReasons: seq<string>,
    eligibleForPrep: bool, prepReasons: seq<string>,
    hwController: string, hwTitle: string, hwDrive: string)

  // --- Paths ----------------------------------------------------------------------------

  function NormalizeDevPath(p: string): Option<string> {
    var t := Trim(p);
    if t == "" then None
    else if StartsWith(t, "/dev/") then Some(t)
    else if StartsWith(t, "disk/by-id") then Some("/" + t)
    else Some("/dev/" + t)
  }

  function OsPath(ld: LogicalDrive): Option<string> {
    if NormalizeDevPath(ld.osDevicePath).Some? then NormalizeDevPath(ld.osDevicePath)
    else if NormalizeDevPath(ld.devicePath).Some? then NormalizeDevPath(ld.devicePath)
    else NormalizeDevPath(ld.scsiDevice)
  }

  function WithoutDev(path: string): string { if StartsWith(path, "/dev/") then path[5..] else path }

  predicate IsAt(r: Row, target: string) {
    r.path == target || r.name == WithoutDev(target) || NormalizeDevPath(r.path) == Some(target)
  }

  /** The first row that is at the target, or the number of rows. */
  function IndexAt(rows: seq<Row>, target: string): (k: nat)
    ensures k <= |rows|
    ensures k < |rows| ==> IsAt(rows[k], target)
    ensures forall j :: 0 <= j < k ==> !IsAt(rows[j], target)
  {
    if rows == [] then 0 else if IsAt(rows[0], target) then 0 else IndexAt(rows[1..], target) + 1
  }

  /** `findBlockDeviceByPath`, as a position. */
  function IndexByPath(rows: seq<Row>, path: string): (k: nat)
    ensures k <= |rows|
  {
    var target := NormalizeDevPath(path);
    if target.None? then |rows| else IndexAt(rows, target.value)
  }

  // --- What the passes compute ----------------------------------------------------------

  function AppendOnce(s: seq<string>, x: string): seq<string> { if x in s then s else s + [x] }

  function MarkRow(r: Row, d: Drive): Row {
    r.(usedBy := AppendOnce(r.usedBy, HARDWARE_RAID), hwController := d.controllerId, hwTitle := d.title,
       hwDrive := d.ld.id)
  }

  /** The position of the device a drive occupies, or the number of rows. */
  function Target(d: Drive, rows: seq<Row>): (k: nat)
    ensures k <= |rows|
  {
    if OsPath(d.ld).None? then |rows| else IndexByPath(rows, OsPath(d.ld).value)
  }

  function MarkOne(d: Drive, rows: seq<Row>): (r: seq<Row>)
    ensures |r| == |rows|
  {
    var k := Target(d, rows);
    if k < |rows| then rows[k := MarkRow(rows[k], d)] else rows
  }

  function MarkAll(drives: seq<Drive>, rows: seq<Row>): (r: seq<Row>)
    ensures |r| == |rows|
  {
    if drives == [] then rows else MarkOne(drives[|drives| - 1], MarkAll(drives[..|drives| - 1], rows))
  }

  function DriveOf(c: Controller): LogicalDrive -> Drive {
    (ld: LogicalDrive) => Drive(c.id, if c.model != "" then c.model else c.id, ld)
  }
  function DrivesOf(): Controller -> seq<Drive> { (c: Controller) => Map(DriveOf(c), c.drives) }
  function Drives(controllers: seq<Controller>): seq<Drive> { FlatMap(DrivesOf(), controllers) }

  predicate IsMarked(r: Row) { HARDWARE_RAID in r.usedBy }

  function BlockMd(r: Row): Row { r.(eligibleForMd := false, mdReasons := AppendOnce(r.mdReasons, BLOCK_REASON)) }

  function ParentPath(r: Row): string { if StartsWith(r.parent, "/dev/") then r.parent else "/dev/" + r.parent }

  /** The last row with the path, as a map from paths to devices holds it. */
  function LastAt(rows: seq<Row>, path: string): Option<Row> {
    if rows == [] then None
    else if rows[|rows| - 1].path == path then Some(rows[|rows| - 1])
    else LastAt(rows[..|rows| - 1], path)
  }

  predicate ParentMarked(rows: seq<Row>, r: Row) {
    r.kind == Part && r.parent != ""
    && LastAt(rows, ParentPath(r)).Some? && IsMarked(LastAt(rows, ParentPath(r)).value)
  }

  function RestrictRow(rows: seq<Row>, r: Row): Row {
    var own := if IsMarked(r) then BlockMd(r) else r;
    if ParentMarked(rows, r) then BlockMd(own) else own
  }

  /** Some logical drive's path is the device's own normalized path. */
  predicate DriveAt(drives: seq<Drive>, path: string) {
    var target := NormalizeDevPath(path);
    target.Some? && exists d :: d in drives && OsPath(d.ld) == target
  }

  function PrepRow(drives: seq<Drive>, r: Row): Row {
    if r.kind == Disk && DriveAt(drives, r.path)
    then r.(eligibleForPrep := false, prepReasons := AppendOnce(r.prepReasons, BLOCK_REASON)) else r
  }

  function RestrictIn(rows: seq<Row>): Row -> Row { (r: Row) => RestrictRow(rows, r) }
  function PrepFor(drives: seq<Drive>): Row -> Row { (r: Row) => PrepRow(drives, r) }

  /** `applyHardwareRaidMdRestrictions`. */
  function Apply(drives: seq<Drive>, rows: seq<Row>): (r: seq<Row>)
    ensures |r| == |rows|
  {
    var marked := MarkAll(drives, rows);
    Map(PrepFor(drives), Map(RestrictIn(marked), marked))
  }

  // --- The devices and the loops that change them ---------------------------------------

  class BlockDevice {
    const path: string
    const name: string
    const kind: Kind
    const parent: string
    var usedBy: seq<string>
    var eligibleForMd: bool
    var mdReasons: seq<string>
    var eligibleForPrep: bool
    var prepReasons: seq<string>
    var hwController: string
    var hwTitle: string
    var hwDrive: string

    constructor (r: Row)
      ensures Value() == r
    {
      path, name, kind, parent := r.path, r.name, r.kind, r.parent;
      usedBy, eligibleForMd, mdReasons := r.usedBy, r.eligibleForMd, r.mdReasons;
      eligibleForPrep, prepReasons := r.eligibleForPrep, r.prepReasons;
      hwController, hwTitle, hwDrive := r.hwController, r.hwTitle, r.hwDrive;
    }

    function Value(): Row
      reads this
    {
      Row(path, name, kind, parent, usedBy, eligibleForMd, mdReasons, eligibleForPrep, prepReasons,
          hwController, hwTitle, hwDrive)
    }

    method Mark(d: Drive)
      modifies this
      ensures Value() == MarkRow(old(Value()), d)
    {
      if HARDWARE_RAID !in usedBy {
        usedBy := usedBy + [HARDWARE_RAID];
      }
      hwController, hwTitle, hwDrive := d.controllerId, d.title, d.ld.id;
    }

    method Block()
      modifies this
      ensures Value() == BlockMd(old(Value()))
    {
      eligibleForMd := false;
      if BLOCK_REASON !in mdReasons {
        mdReasons := mdReasons + [BLOCK_REASON];
      }
    }

    method ForbidPrep()
      modifies this
      ensures Value()
           == old(Value()).(eligibleForPrep := false, prepReasons := AppendOnce(old(prepReasons), BLOCK_REASON))
    {
      if BLOCK_REASON !in prepReasons {
        prepReasons := prepReasons + [BLOCK_REASON];
      }
      eligibleForPrep := false;
    }
  }

  function Rows(devices: seq<BlockDevice>): (r: seq<Row>)
    reads devices
    ensures |r| == |devices|
    ensures forall i :: 0 <= i < |devices| ==> r[i] == devices[i].Value()
  {
    if devices == [] then [] else [devices[0].Value()] + Rows(devices[1..])
  }

  lemma {:induction false} MarkAllConcat(a: seq<Drive>, b: seq<Drive>, rows: seq<Row>)
    ensures MarkAll(a + b, rows) == MarkAll(b, MarkAll(a, rows))
  {
    if b == [] {
      assert a + b == a;
    } else {
      assert (a + b)[..|a + b| - 1] == a + b[..|b| - 1];
      MarkAllConcat(a, b[..|b| - 1], rows);
    }
  }

  lemma MarkAllStep(drives: seq<Drive>, rows: seq<Row>, i: nat)
    requires i < |drives|
    ensures MarkAll(drives[..i + 1], rows) == MarkOne(drives[i], MarkAll(drives[..i], rows))
  {
    assert drives[..i + 1][..i] == drives[..i];
  }

  method MarkDrive(d: Drive, devices: seq<BlockDevice>)
    requires NoDup(devices)
    modifies devices
    ensures Rows(devices) == MarkOne(d, old(Rows(devices)))
  {
    if OsPath(d.ld).None? {
      return;
    }
    var k := IndexByPath(Rows(devices), OsPath(d.ld).value);
    if k < |devices| {
      devices[k].Mark(d);
      assert forall i :: 0 <= i < |devices| && i != k ==> devices[i] != devices[k];
    }
  }

  method MarkController(c: Controller, devices: seq<BlockDevice>)
    requires NoDup(devices)
    modifies devices
    ensures Rows(devices) == MarkAll(DrivesOf()(c), old(Rows(devices)))
  {
    var drives := DrivesOf()(c);
    for i := 0 to |drives|
      invariant Rows(devices) == MarkAll(drives[..i], old(Rows(devices)))
    {
      MarkAllStep(drives, old(Rows(devices)), i);
      MarkDrive(drives[i], devices);
    }
    assert drives[..|drives|] == drives;
  }

  method MarkBlockDevicesFromHardwareRaid(controllers: seq<Controller>, devices: seq<BlockDevice>)
    requires NoDup(devices)
    modifies devices
    ensures Rows(devices) == MarkAll(Drives(controllers), old(Rows(devices)))
  {
    for i := 0 to |controllers|
      invariant Rows(devices) == MarkAll(Drives(controllers[..i]), old(Rows(devices)))
    {
      FlatMapStep(DrivesOf(), controllers, i);
      MarkAllConcat(Drives(controllers[..i]), DrivesOf()(controllers[i]), old(Rows(devices)));
      MarkController(controllers[i], devices);
    }
    assert controllers[..|controllers|] == controllers;
  }

  lemma RowsAre(devices: seq<BlockDevice>, f: Row -> Row, rows: seq<Row>)
    requires |rows| == |devices| && forall j :: 0 <= j < |devices| ==> devices[j].Value() == f(rows[j])
    ensures Rows(devices) == Map(f, rows)
  {
  }

  /** The second loop: marked devices and their partitions lose MD eligibility. Nothing it changes is
      read again, so every device is judged by the rows the loop started with. */
  method RestrictMarked(devices: seq<BlockDevice>)
    requires NoDup(devices)
    modifies devices
    ensures Rows(devices) == Map(RestrictIn(old(Rows(devices))), old(Rows(devices)))
  {
    var rows := Rows(devices);
    ghost var f := RestrictIn(rows);
    for i := 0 to |devices|
      invariant forall j :: 0 <= j < i ==> devices[j].Value() == f(rows[j])
      invariant forall j :: i <= j < |devices| ==> devices[j].Value() == rows[j]
    {
      RestrictDevice(devices[i], rows);
      assert forall j :: 0 <= j < |devices| && j != i ==> devices[j] != devices[i];
    }
    RowsAre(devices, f, rows);
  }

  method RestrictDevice(dev: BlockDevice, rows: seq<Row>)
    modifies dev
    ensures dev.Value() == RestrictIn(rows)(old(dev.Value()))
  {
    if HARDWARE_RAID in dev.usedBy {
      dev.Block();
    }
    if dev.kind != Part || dev.parent == "" {
      return;
    }
    var parent := LastAt(rows, if StartsWith(dev.parent, "/dev/") then dev.parent else "/dev/" + dev.parent);
    if parent.None? || !IsMarked(parent.value) {
      return;
    }
    dev.Block();
  }

  /** The third loop: disks a drive's own path names lose eligibility for partition preparation. */
  method RestrictPrep(drives: seq<Drive>, devices: seq<BlockDevice>)
    requires NoDup(devices)
    modifies devices
    ensures Rows(devices) == Map(PrepFor(drives), old(Rows(devices)))
  {
    ghost var rows := Rows(devices);
    ghost var f := PrepFor(drives);
    for i := 0 to |devices|
      invariant forall j :: 0 <= j < i ==> devices[j].Value() == f(rows[j])
      invariant forall j :: i <= j < |devices| ==> devices[j].Value() == rows[j]
    {
      RestrictPrepOf(drives, devices[i]);
      assert forall j :: 0 <= j < |devices| && j != i ==> devices[j] != devices[i];
    }
    RowsAre(devices, f, rows);
  }

  method RestrictPrepOf(drives: seq<Drive>, dev: BlockDevice)
    modifies dev
    ensures dev.Value() == PrepFor(drives)(old(dev.Value()))
  {
    if dev.kind != Disk {
      return;
    }
    if !DriveAt(drives, dev.path) {
      return;
    }
    dev.ForbidPrep();
  }

  method ApplyHardwareRaidMdRestrictions(controllers: seq<Controller>, devices: seq<BlockDevice>)
    requires NoDup(devices)
    modifies devices
    ensures Rows(devices) == Apply(Drives(controllers), old(Rows(devices)))
  {
    MarkBlockDevicesFromHardwareRaid(controllers, devices);
    RestrictMarked(devices);
    RestrictPrep(Drives(controllers), devices);
  }
}
