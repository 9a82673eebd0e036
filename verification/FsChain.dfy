/** The two views of FILEIO provisioning: the recommended next action and the statuses of the
    steps, `utils/fs-provisioning-chain.ts`, `utils/fs-provisioning-chain-aggregate.ts`,
    `utils/fs-fileio-inventory.ts`. */
module FsChain {
  import opened Sequences
  import opened Text
  import opened ActiveMount

  /** A virtual disk file. An empty `fileioDeviceName` stands for an absent one. */
  datatype Vdisk = Vdisk(path: string, fileName: string, mountPoint: string, scstDeviceNames: seq<string>,
                         mapped: bool, fileioDeviceName: string)
  datatype Device = Device(name: string, filename: string, mapped: bool)
  datatype Lun = Lun(targetName: string, lunId: int, deviceName: string, fileio: bool, filename: string)
  datatype Backend = Backend(logicalVolume: bool, eligible: bool)

  datatype Overview = Overview(
    mounts: seq<Mount>, vdisks: seq<Vdisk>, devices: seq<Device>, luns: seq<Lun>, backends: seq<Backend>)
  datatype Inventory = Inventory(vdisks: seq<Vdisk>, devices: seq<Device>, luns: seq<Lun>, backends: seq<Backend>)

  /** How the picker is parameterised: collation, virtual-disk roots, and the mount the user chose. */
  datatype Context = Context(le: (string, string) -> bool, roots: seq<string>, active: Option<string>)

  // --- Slices ---------------------------------------------------------------------------

  predicate OnMount(path: string, mount: string) { path == mount || Below(path, mount) }

  function VdiskOn(mount: string): Vdisk -> bool {
    (v: Vdisk) => v.mountPoint == mount || OnMount(v.path, mount)
  }
  function DeviceOn(mount: string): Device -> bool {
    (d: Device) => d.filename != "" && OnMount(d.filename, mount)
  }
  function LunOn(devices: seq<Device>, mount: string): Lun -> bool {
    (l: Lun) => (exists d :: d in devices && d.name == l.deviceName) || (l.filename != "" && OnMount(l.filename, mount))
  }
  function FileioLun(devices: seq<Device>): Lun -> bool {
    (l: Lun) => l.fileio || exists d :: d in devices && d.name == l.deviceName
  }

  function ExtractInventory(o: Overview): Inventory {
    Inventory(o.vdisks, o.devices, Filter(FileioLun(o.devices), o.luns), o.backends)
  }

  function ScopeToMount(inv: Inventory, mount: string): Inventory {
    var devices := Filter(DeviceOn(mount), inv.devices);
    inv.(vdisks := Filter(VdiskOn(mount), inv.vdisks), devices := devices,
         luns := Filter(LunOn(devices, mount), inv.luns))
  }

  /** The scope the steps use: everything while there is no mount point. */
  function Scoped(inv: Inventory, mount: Option<string>): Inventory {
    if mount.Some? && mount.value != "" then ScopeToMount(inv, mount.value) else inv
  }

  /** The slices the next action uses. */
  function VdiskSlice(o: Overview, mount: string): seq<Vdisk> {
    if mount == "" then o.vdisks else Filter(VdiskOn(mount), o.vdisks)
  }
  function DeviceSlice(o: Overview, mount: string): seq<Device> {
    if mount == "" then o.devices else Filter(DeviceOn(mount), o.devices)
  }

  predicate HasFileioDevice(v: Vdisk, devices: seq<Device>) {
    |v.scstDeviceNames| > 0 || v.fileioDeviceName != "" || exists d :: d in devices && d.filename == v.path
  }

  predicate DeviceMapped(d: Device, luns: seq<Lun>) {
    d.mapped || exists l :: l in luns && l.deviceName == d.name
  }

  function Registered(devices: seq<Device>): Vdisk -> bool { (v: Vdisk) => HasFileioDevice(v, devices) }
  function Unregistered(devices: seq<Device>): Vdisk -> bool { (v: Vdisk) => !HasFileioDevice(v, devices) }
  function MappedIn(luns: seq<Lun>): Device -> bool { (d: Device) => DeviceMapped(d, luns) }
  function UnmappedIn(luns: seq<Lun>): Device -> bool { (d: Device) => !DeviceMapped(d, luns) }
  function IsReady(): Mount -> bool { (m: Mount) => m.mounted && m.ready }
  function IsUp(): Mount -> bool { (m: Mount) => m.mounted }

  // --- The next action ------------------------------------------------------------------

  datatype Next =
    | CreateFs
    | CreateVdisk(mount: string)
    | BindFileio(mount: string, path: string)
    | BindRemaining(mount: string, count: nat, total: nat)
    | ExposeOne(mount: string, device: string)
    | ExposeRemaining(mount: string, count: nat, total: nat)
    | ExposeAny
    | NothingLeft

  predicate IsBind(n: Next) { n.BindFileio? || n.BindRemaining? }
  predicate IsExpose(n: Next) { n.ExposeOne? || n.ExposeRemaining? || n.ExposeAny? }

  function PickActive(c: Context, o: Overview): Option<Mount> { Pick(c.le, c.roots, o.mounts, None, c.active) }

  /** The data mounts that are mounted by their status. */
  function ReadyMounts(o: Overview): seq<Mount> { Filter(IsRelevant(), Filter(IsReady(), o.mounts)) }

  /** The data mounts that are mounted by their flag. */
  function DataMounts(o: Overview): seq<Mount> { Filter(IsRelevant(), Filter(IsUp(), o.mounts)) }

  function NextAction(c: Context, o: Overview): Next {
    if ReadyMounts(o) == [] then CreateFs
    else
      var mount := PickActive(c, o);
      if mount.None? then CreateFs else NextOn(o, mount.value.mountPoint)
  }

  function NextOn(o: Overview, mount: string): Next {
    var vdisks, devices := VdiskSlice(o, mount), DeviceSlice(o, mount);
    var unregistered := Filter(Unregistered(devices), vdisks);
    if vdisks == [] && !(exists d :: d in devices && d.filename != "") then CreateVdisk(mount)
    else if |unregistered| == 1 then BindFileio(mount, unregistered[0].path)
    else if |unregistered| > 1 then BindRemaining(mount, |unregistered|, |vdisks|)
    else NextExposure(o, mount, vdisks, devices)
  }

  function NextExposure(o: Overview, mount: string, vdisks: seq<Vdisk>, devices: seq<Device>): Next {
    var unmapped := Filter(UnmappedIn(o.luns), devices);
    if |unmapped| == 1 then ExposeOne(mount, unmapped[0].name)
    else if |unmapped| > 1 then ExposeRemaining(mount, |unmapped|, |devices|)
    else
      var anyMapped := (exists d :: d in devices && d.mapped) || exists v :: v in vdisks && v.mapped;
      if anyMapped && MountLuns(o, mount) == [] then ExposeAny else NothingLeft
  }

  /** The LUNs of the mount, as the last test of the next action sees them. */
  function MountLuns(o: Overview, mount: string): seq<Lun> { ScopeToMount(ExtractInventory(o), mount).luns }

  // --- The steps ------------------------------------------------------------------------

  datatype Status = Created | NextStep | Optional | Missing

  datatype Aggregate = Aggregate(
    vdiskTotal: nat, vdiskRegistered: nat, devices: seq<Device>, mapped: nat, luns: seq<Lun>)

  function Aggregated(inv: Inventory, mount: Option<string>): Aggregate {
    var s := Scoped(inv, mount);
    Aggregate(|s.vdisks|, |Filter(Registered(s.devices), s.vdisks)|, s.devices, |Filter(MappedIn(s.luns), s.devices)|,
              s.luns)
  }

  function VdiskStatus(a: Aggregate, dataMounts: nat, blockioOnly: bool): Status {
    if a.vdiskTotal > 0 then (if a.vdiskRegistered < a.vdiskTotal then NextStep else Created)
    else if dataMounts > 0 then NextStep
    else if blockioOnly then Optional else Missing
  }

  function FileioStatus(a: Aggregate, blockioOnly: bool): Status {
    if a.vdiskTotal == 0 then
      if |a.devices| > 0 then Created else if blockioOnly then Optional else Missing
    else if a.vdiskRegistered == 0 then NextStep
    else if a.vdiskRegistered < a.vdiskTotal then NextStep
    else Created
  }

  function ExposeStatus(a: Aggregate, blockioOnly: bool): Status {
    if |a.devices| == 0 then
      if a.vdiskTotal == 0 then (if blockioOnly then Optional else Missing) else NextStep
    else if a.mapped == 0 then NextStep
    else if a.mapped < |a.devices| then NextStep
    else Created
  }

  datatype StepId = Filesystem | VdiskStep | FileioStep | ExposeStep
  datatype Hint = NoHint | FsOptional | FsNeeded | FileioOptional | Follow(next: Next)

  datatype Detail =
    | Dash | MountPoint(path: string)
    | NoVdisk | OneVdisk(name: string) | ManyVdisks(count: nat)
    | OneDevice(name: string) | DeviceMissing | NoneRegistered(total: nat) | AllRegistered(count: nat)
    | SomeRegistered(registered: nat, total: nat)
    | OneLun(target: string, lun: int) | NothingExposed(total: nat) | AllExposed(count: nat)
    | SomeExposed(mapped: nat, total: nat)

  /** A step. A count of 0 is not shown. */
  datatype Step = Step(id: StepId, status: Status, count: nat, hint: Hint, detail: Detail)

  function VdiskDetail(vdisks: seq<Vdisk>, a: Aggregate): Detail
    requires |vdisks| == a.vdiskTotal
  {
    if a.vdiskTotal == 0 then NoVdisk
    else if a.vdiskTotal == 1 then OneVdisk(vdisks[0].fileName)
    else ManyVdisks(a.vdiskTotal)
  }

  function FileNamed(path: string): Device -> bool { (d: Device) => d.filename == path }
  function DeviceNamed(name: string): Device -> bool { (d: Device) => d.name == name }

  function DeviceOf(v: Vdisk, devices: seq<Device>): Option<Device> {
    var byFile := Find(FileNamed(v.path), devices);
    var byDevice := if v.fileioDeviceName != "" then Find(DeviceNamed(v.fileioDeviceName), devices) else None;
    if byFile.Some? then byFile
    else if byDevice.Some? then byDevice
    else if |v.scstDeviceNames| > 0 && v.scstDeviceNames[0] != "" then Find(DeviceNamed(v.scstDeviceNames[0]), devices)
    else None
  }

  function FileioDetail(vdisks: seq<Vdisk>, a: Aggregate): Detail
    requires |vdisks| == a.vdiskTotal
  {
    if a.vdiskTotal == 0 then
      if |a.devices| == 1 then OneDevice(a.devices[0].name)
      else if |a.devices| > 1 then AllRegistered(|a.devices|)
      else Dash
    else if a.vdiskTotal == 1 then
      var device := DeviceOf(vdisks[0], a.devices);
      if device.Some? then OneDevice(device.value.name) else DeviceMissing
    else if a.vdiskRegistered == 0 then NoneRegistered(a.vdiskTotal)
    else if a.vdiskRegistered == a.vdiskTotal then AllRegistered(a.vdiskRegistered)
    else SomeRegistered(a.vdiskRegistered, a.vdiskTotal)
  }

  function ExposeDetail(a: Aggregate): Detail {
    var total := if |a.devices| > 0 then |a.devices| else a.vdiskRegistered;
    if a.vdiskTotal == 0 then Dash
    else if total <= 1 then
      if |a.luns| > 0 && a.mapped > 0 then OneLun(a.luns[0].targetName, a.luns[0].lunId) else NothingExposed(0)
    else if a.mapped == 0 then NothingExposed(total)
    else if a.mapped == total then AllExposed(a.mapped)
    else SomeExposed(a.mapped, total)
  }

  function StepMount(c: Context, o: Overview): Option<string> {
    var picked := PickActive(c, o);
    if picked.Some? then Some(picked.value.mountPoint) else c.active
  }

  predicate BlockioOnly(c: Context, o: Overview, inv: Inventory) {
    && DataMounts(o) == []
    && Scoped(inv, StepMount(c, o)).devices == []
    && (exists b :: b in inv.backends && b.logicalVolume)
    && !(exists b :: b in inv.backends && b.eligible)
  }

  function FsStatus(c: Context, o: Overview, inv: Inventory): Status {
    if DataMounts(o) != [] then Created else if BlockioOnly(c, o, inv) then Optional else Missing
  }

  function FsStep(c: Context, o: Overview, inv: Inventory): Step {
    var picked := PickActive(c, o);
    Step(Filesystem, FsStatus(c, o, inv), 0,
         if DataMounts(o) != [] then NoHint else if BlockioOnly(c, o, inv) then FsOptional else FsNeeded,
         if picked.Some? then MountPoint(picked.value.mountPoint)
         else if DataMounts(o) != [] then MountPoint(DataMounts(o)[0].mountPoint) else Dash)
  }

  function Steps(c: Context, o: Overview, inv: Inventory): (r: seq<Step>)
    ensures |r| == 4
  {
    var a, s := Aggregated(inv, StepMount(c, o)), Scoped(inv, StepMount(c, o));
    var only, next := BlockioOnly(c, o, inv), NextAction(c, o);
    [ FsStep(c, o, inv),
      Step(VdiskStep, VdiskStatus(a, |DataMounts(o)|, only), a.vdiskTotal,
           if next.CreateVdisk? then Follow(next) else NoHint, VdiskDetail(s.vdisks, a)),
      Step(FileioStep, FileioStatus(a, only), |s.devices|,
           if IsBind(next) then Follow(next) else NoHint, FileioDetail(s.vdisks, a)),
      Step(ExposeStep, ExposeStatus(a, only), |a.luns|,
           if only then FileioOptional else if IsExpose(next) then Follow(next) else NoHint, ExposeDetail(a)) ]
  }

  const EMPTY_STEPS: seq<Step> := [
    Step(Filesystem, Missing, 0, FsNeeded, Dash), Step(VdiskStep, Missing, 0, NoHint, NoVdisk),
    Step(FileioStep, Missing, 0, NoHint, Dash), Step(ExposeStep, Missing, 0, NoHint, Dash)]

  /** The steps as they are built first, most of them without a detail. */
  function DraftSteps(c: Context, o: Overview, inv: Inventory): (r: seq<Step>)
    ensures |r| == 4
  {
    var a, s := Aggregated(inv, StepMount(c, o)), Scoped(inv, StepMount(c, o));
    var only, next := BlockioOnly(c, o, inv), NextAction(c, o);
    [ FsStep(c, o, inv),
      Step(VdiskStep, VdiskStatus(a, |DataMounts(o)|, only), a.vdiskTotal,
           if next.CreateVdisk? then Follow(next) else NoHint, Dash),
      Step(FileioStep, FileioStatus(a, only), |s.devices|, if IsBind(next) then Follow(next) else NoHint, Dash),
      Step(ExposeStep, ExposeStatus(a, only), |a.luns|,
           if only then FileioOptional else if IsExpose(next) then Follow(next) else NoHint, Dash) ]
  }

  function WithDetails(d: seq<Step>, vdisk: Detail, fileio: Detail, expose: Detail): (r: seq<Step>)
    requires |d| == 4
  {
    d[1 := d[1].(detail := vdisk)][2 := d[2].(detail := fileio)][3 := d[3].(detail := expose)]
  }

  /** Setting the details of the last three steps completes them. */
  lemma DetailsComplete(c: Context, o: Overview, inv: Inventory)
    ensures var s, a := Scoped(inv, StepMount(c, o)), Aggregated(inv, StepMount(c, o));
            WithDetails(DraftSteps(c, o, inv), VdiskDetail(s.vdisks, a), FileioDetail(s.vdisks, a), ExposeDetail(a))
              == Steps(c, o, inv)
  {
  }

  /** The steps are built with their statuses first; the details of three of them are set afterwards. */
  method BuildFsProvisioningSteps(c: Context, o: Option<Overview>, inventory: Option<Inventory>)
    returns (steps: array<Step>)
    ensures fresh(steps)
    ensures steps[..] == if o.None? then EMPTY_STEPS
      else Steps(c, o.value, if inventory.Some? then inventory.value else ExtractInventory(o.value))
  {
    if o.None? {
      steps := Allocate(EMPTY_STEPS);
      return;
    }
    var inv := if inventory.Some? then inventory.value else ExtractInventory(o.value);
    var mount := StepMount(c, o.value);
    var s, a := Scoped(inv, mount), Aggregated(inv, mount);
    steps := Allocate(DraftSteps(c, o.value, inv));
    SetDetails(steps, VdiskDetail(s.vdisks, a), FileioDetail(s.vdisks, a), ExposeDetail(a));
    DetailsComplete(c, o.value, inv);
  }

  method SetDetails(steps: array<Step>, vdisk: Detail, fileio: Detail, expose: Detail)
    requires steps.Length == 4
    modifies steps
    ensures steps[..] == WithDetails(old(steps[..]), vdisk, fileio, expose)
  {
    ApplyStepDetail(steps, 1, vdisk);
    ApplyStepDetail(steps, 2, fileio);
    ApplyStepDetail(steps, 3, expose);
  }

  method Allocate(content: seq<Step>) returns (steps: array<Step>)
    requires |content| == 4
    ensures fresh(steps) && steps[..] == content
  {
    steps := new Step[][content[0], content[1], content[2], content[3]];
  }

  method ApplyStepDetail(steps: array<Step>, i: nat, detail: Detail)
    requires i < steps.Length
    modifies steps
    ensures steps[..] == old(steps[..])[i := old(steps[i]).(detail := detail)]
  {
    steps[i] := steps[i].(detail := detail);
  }
}
