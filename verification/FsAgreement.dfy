/** The next action and the step statuses agree, although they filter LUNs through different scopes. */
module FsAgreement {
  import opened Sequences
  import opened Collation
  import opened ActiveMount
  import opened FsChain

  ghost predicate AllCreated(c: Context, o: Overview) {
    forall s :: s in Steps(c, o, ExtractInventory(o)) ==> s.status == Created
  }

  /** If there is a FILEIO data mount at all, the status of one says that it is mounted. */
  ghost predicate StatusMatches(o: Overview) { DataMounts(o) != [] ==> ReadyMounts(o) != [] }

  /** A device is flagged as mapped exactly when some LUN names it. */
  ghost predicate FlagsMatch(o: Overview) {
    forall d :: d in o.devices ==> (d.mapped <==> exists l :: l in o.luns && l.deviceName == d.name)
  }

  function StatusOf(c: Context, o: Overview, i: nat): Status
    requires i < 4
  {
    Steps(c, o, ExtractInventory(o))[i].status
  }

  // --- The mount both views work on -----------------------------------------------------

  lemma DataMountsRelevant(o: Overview)
    ensures forall m :: m in DataMounts(o) <==> m in Relevant(o.mounts)
    ensures forall m :: m in ReadyMounts(o) ==> m in DataMounts(o)
    ensures DataMounts(o) != [] <==> Relevant(o.mounts) != []
    ensures ReadyMounts(o) != [] ==> DataMounts(o) != []
  {
    assert DataMounts(o) != [] ==> DataMounts(o)[0] in DataMounts(o);
    assert Relevant(o.mounts) != [] ==> Relevant(o.mounts)[0] in Relevant(o.mounts);
    assert ReadyMounts(o) != [] ==> ReadyMounts(o)[0] in ReadyMounts(o);
  }

  /** A mount is chosen exactly when there is a data mount. */
  lemma PickedExact(c: Context, o: Overview)
    ensures PickActive(c, o).Some? <==> DataMounts(o) != []
  {
    DataMountsRelevant(o);
  }

  // --- The two scopes -------------------------------------------------------------------

  ghost predicate SameSlices(o: Overview, mount: string) {
    var s := Scoped(ExtractInventory(o), Some(mount));
    s.vdisks == VdiskSlice(o, mount) && s.devices == DeviceSlice(o, mount)
  }

  lemma SlicesCoincide(o: Overview, mount: string)
    ensures SameSlices(o, mount)
  {
  }

  lemma DeviceSliceSubset(o: Overview, mount: string, d: Device)
    requires d in DeviceSlice(o, mount)
    ensures d in o.devices
  {
  }

  /** A LUN that names a device of the mount survives every filter the steps apply. */
  lemma LunKept(o: Overview, mount: string, d: Device, l: Lun)
    requires d in DeviceSlice(o, mount) && l in o.luns && l.deviceName == d.name
    ensures l in Scoped(ExtractInventory(o), Some(mount)).luns
    ensures mount != "" ==> l in MountLuns(o, mount)
  {
    DeviceSliceSubset(o, mount, d);
    assert FileioLun(o.devices)(l);
    assert l in ExtractInventory(o).luns;
    if mount != "" {
      assert LunOn(DeviceSlice(o, mount), mount)(l);
    }
  }

  /** On the devices of the mount, "mapped" means the same through either list of LUNs. */
  lemma MappedCoincides(o: Overview, mount: string, d: Device)
    requires d in DeviceSlice(o, mount)
    ensures DeviceMapped(d, Scoped(ExtractInventory(o), Some(mount)).luns) <==> DeviceMapped(d, o.luns)
  {
    forall l | l in o.luns && l.deviceName == d.name ensures l in Scoped(ExtractInventory(o), Some(mount)).luns {
      LunKept(o, mount, d, l);
    }
    assert forall l :: l in Scoped(ExtractInventory(o), Some(mount)).luns ==> l in o.luns;
  }

  lemma NoneUnregistered(o: Overview, mount: string)
    ensures var a := Aggregated(ExtractInventory(o), Some(mount));
            a.vdiskRegistered <= a.vdiskTotal
            && (a.vdiskRegistered == a.vdiskTotal
                <==> Filter(Unregistered(DeviceSlice(o, mount)), VdiskSlice(o, mount)) == [])
  {
    SlicesCoincide(o, mount);
    var vdisks, devices := VdiskSlice(o, mount), DeviceSlice(o, mount);
    FilterCount(Registered(devices), vdisks);
    EmptyFilter(Unregistered(devices), vdisks);
  }

  lemma NoneUnmapped(o: Overview, mount: string)
    ensures var a := Aggregated(ExtractInventory(o), Some(mount));
            a.mapped <= |a.devices|
            && (a.mapped == |a.devices| <==> Filter(UnmappedIn(o.luns), DeviceSlice(o, mount)) == [])
  {
    SlicesCoincide(o, mount);
    var luns, devices := Scoped(ExtractInventory(o), Some(mount)).luns, DeviceSlice(o, mount);
    FilterCount(MappedIn(luns), devices);
    EmptyFilter(UnmappedIn(o.luns), devices);
    forall d | d in devices ensures DeviceMapped(d, luns) <==> DeviceMapped(d, o.luns) {
      MappedCoincides(o, mount, d);
    }
  }

  lemma EmptyFilter<T(!new)>(p: T -> bool, s: seq<T>)
    ensures Filter(p, s) == [] <==> forall x :: x in s ==> !p(x)
  {
    if forall x :: x in s ==> !p(x) {
      FilterNone(p, s);
    }
  }

  // --- The agreement --------------------------------------------------------------------

  /** The mount of both views, when there is one. */
  ghost predicate Active(c: Context, o: Overview, mount: string) {
    PickActive(c, o).Some? && PickActive(c, o).value.mountPoint == mount
  }

  lemma MountedNotBlockio(c: Context, o: Overview)
    requires PickActive(c, o).Some?
    ensures DataMounts(o) != [] && !BlockioOnly(c, o, ExtractInventory(o))
  {
    PickedExact(c, o);
  }

  lemma StatusesOn(c: Context, o: Overview, mount: string)
    requires Active(c, o, mount)
    ensures |DataMounts(o)| > 0 && StatusOf(c, o, 0) == Created
    ensures var a := Aggregated(ExtractInventory(o), Some(mount));
            && StatusOf(c, o, 1) == VdiskStatus(a, |DataMounts(o)|, false)
            && StatusOf(c, o, 2) == FileioStatus(a, false)
            && StatusOf(c, o, 3) == ExposeStatus(a, false)
  {
    MountedNotBlockio(c, o);
  }

  /** On a mount, all four steps are done exactly when there are virtual disks and devices, every
      disk has a device and every device is mapped. */
  lemma AllCreatedOn(c: Context, o: Overview, mount: string)
    requires Active(c, o, mount)
    ensures AllCreated(c, o)
       <==> VdiskSlice(o, mount) != [] && DeviceSlice(o, mount) != []
            && Filter(Unregistered(DeviceSlice(o, mount)), VdiskSlice(o, mount)) == []
            && Filter(UnmappedIn(o.luns), DeviceSlice(o, mount)) == []
  {
    StatusesOn(c, o, mount);
    SlicesCoincide(o, mount);
    NoneUnregistered(o, mount);
    NoneUnmapped(o, mount);
    var steps := Steps(c, o, ExtractInventory(o));
    assert steps == [steps[0], steps[1], steps[2], steps[3]];
    assert AllCreated(c, o) <==> forall i: nat :: i < 4 ==> StatusOf(c, o, i) == Created;
  }

  /** Nothing done without a mount. */
  lemma CreatedNeedsMount(c: Context, o: Overview)
    requires AllCreated(c, o)
    ensures PickActive(c, o).Some?
  {
    PickedExact(c, o);
    assert Steps(c, o, ExtractInventory(o))[0].status == Created;
  }

  lemma MappedSomehow(o: Overview, mount: string)
    requires DeviceSlice(o, mount) != [] && Filter(UnmappedIn(o.luns), DeviceSlice(o, mount)) == []
    requires mount != "" && MountLuns(o, mount) == []
    ensures exists d :: d in DeviceSlice(o, mount) && d.mapped
  {
    var devices := DeviceSlice(o, mount);
    var d := devices[0];
    assert d in devices;
    EmptyFilter(UnmappedIn(o.luns), devices);
    assert DeviceMapped(d, o.luns);
    forall l | l in o.luns && l.deviceName == d.name ensures l in MountLuns(o, mount) {
      LunKept(o, mount, d, l);
    }
  }

  /** When all four steps are done, nothing is recommended exactly if some LUN lies in the scope of
      the mount; otherwise the recommendation is to expose. */
  lemma AllCreatedNext(c: Context, o: Overview, mount: string)
    requires StatusMatches(o) && AllCreated(c, o) && Active(c, o, mount) && mount != ""
    ensures NextAction(c, o) == if MountLuns(o, mount) != [] then NothingLeft else ExposeAny
  {
    PickedExact(c, o);
    AllCreatedOn(c, o, mount);
    if MountLuns(o, mount) == [] {
      MappedSomehow(o, mount);
    }
  }

  /** When nothing is recommended although the mount holds virtual disks and devices, all steps are done. */
  lemma NothingLeftCreated(c: Context, o: Overview, mount: string)
    requires Active(c, o, mount) && NextAction(c, o).NothingLeft?
    requires VdiskSlice(o, mount) != [] && DeviceSlice(o, mount) != []
    ensures AllCreated(c, o)
  {
    AllCreatedOn(c, o, mount);
  }

  lemma FlaggedLun(o: Overview, mount: string)
    requires FlagsMatch(o) && mount != ""
    requires DeviceSlice(o, mount) != [] && Filter(UnmappedIn(o.luns), DeviceSlice(o, mount)) == []
    ensures MountLuns(o, mount) != []
  {
    var devices := DeviceSlice(o, mount);
    var d := devices[0];
    assert d in devices;
    EmptyFilter(UnmappedIn(o.luns), devices);
    assert DeviceMapped(d, o.luns);
    DeviceSliceSubset(o, mount, d);
    var l :| l in o.luns && l.deviceName == d.name;
    LunKept(o, mount, d, l);
  }

  /** With flags that match the LUNs, the two views agree: all steps are done exactly when nothing is
      recommended and the mount holds virtual disks and devices. */
  lemma ViewsAgree(c: Context, o: Overview, mount: string)
    requires StatusMatches(o) && FlagsMatch(o) && Active(c, o, mount) && mount != ""
    ensures AllCreated(c, o)
       <==> NextAction(c, o).NothingLeft? && VdiskSlice(o, mount) != [] && DeviceSlice(o, mount) != []
  {
    AllCreatedOn(c, o, mount);
    if AllCreated(c, o) {
      FlaggedLun(o, mount);
      AllCreatedNext(c, o, mount);
    }
  }

  lemma NextUsesActive(c: Context, o: Overview)
    ensures ReadyMounts(o) == [] ==> NextAction(c, o) == CreateFs
    ensures ReadyMounts(o) != [] ==>
              PickActive(c, o).Some? && NextAction(c, o) == NextOn(o, PickActive(c, o).value.mountPoint)
  {
    PickedExact(c, o);
    DataMountsRelevant(o);
  }

  lemma NextOnBind(o: Overview, mount: string)
    ensures IsBind(NextOn(o, mount)) <==> Filter(Unregistered(DeviceSlice(o, mount)), VdiskSlice(o, mount)) != []
  {
  }

  lemma NextOnCreate(o: Overview, mount: string)
    requires mount != ""
    ensures NextOn(o, mount).CreateVdisk? <==> VdiskSlice(o, mount) == [] && DeviceSlice(o, mount) == []
  {
    var devices := DeviceSlice(o, mount);
    assert devices != [] ==> devices[0] in devices;
  }

  lemma FileioStatusOn(c: Context, o: Overview, mount: string)
    requires Active(c, o, mount)
    ensures StatusOf(c, o, 2) == NextStep
       <==> Filter(Unregistered(DeviceSlice(o, mount)), VdiskSlice(o, mount)) != []
    ensures StatusOf(c, o, 2) == Missing <==> VdiskSlice(o, mount) == [] && DeviceSlice(o, mount) == []
    ensures VdiskSlice(o, mount) == [] ==> StatusOf(c, o, 1) == NextStep
  {
    StatusesOn(c, o, mount);
    SlicesCoincide(o, mount);
    NoneUnregistered(o, mount);
  }

  /** Binding is recommended exactly when some data mount is mounted and the fileio step is next. */
  lemma BindExact(c: Context, o: Overview)
    ensures IsBind(NextAction(c, o)) <==> ReadyMounts(o) != [] && StatusOf(c, o, 2) == NextStep
  {
    NextUsesActive(c, o);
    if ReadyMounts(o) != [] {
      var mount := PickActive(c, o).value.mountPoint;
      FileioStatusOn(c, o, mount);
      NextOnBind(o, mount);
    }
  }

  /** Creating a virtual disk is recommended exactly when some data mount is mounted, the vdisk step is
      next and the fileio step is missing. */
  lemma CreateVdiskExact(c: Context, o: Overview)
    requires PickActive(c, o).Some? ==> PickActive(c, o).value.mountPoint != ""
    ensures NextAction(c, o).CreateVdisk?
       <==> ReadyMounts(o) != [] && StatusOf(c, o, 1) == NextStep && StatusOf(c, o, 2) == Missing
  {
    NextUsesActive(c, o);
    if ReadyMounts(o) != [] {
      var mount := PickActive(c, o).value.mountPoint;
      FileioStatusOn(c, o, mount);
      NextOnCreate(o, mount);
    }
  }

  /** The device is the one that the detail of a single virtual disk would show. */
  predicate Serves(d: Device, v: Vdisk) {
    || d.filename == v.path
    || (v.fileioDeviceName != "" && d.name == v.fileioDeviceName)
    || (|v.scstDeviceNames| > 0 && v.scstDeviceNames[0] != "" && d.name == v.scstDeviceNames[0])
  }

  lemma DeviceOfExact(v: Vdisk, devices: seq<Device>)
    ensures DeviceOf(v, devices).Some? <==> exists d :: d in devices && Serves(d, v)
    ensures DeviceOf(v, devices).Some? ==> HasFileioDevice(v, devices)
  {
    var byFile := Find(FileNamed(v.path), devices);
    assert byFile.Some? ==> byFile.value in devices && byFile.value.filename == v.path;
    if d :| d in devices && Serves(d, v) {
      assert FileNamed(v.path)(d) || DeviceNamed(v.fileioDeviceName)(d) || DeviceNamed(v.scstDeviceNames[0])(d);
    }
  }

  /** The detail of the fileio step names the device, or says that all are registered. */
  predicate SaysDone(d: Detail) { d.OneDevice? || d.AllRegistered? }

  /** The detail of the fileio step says done exactly when the step is done, unless the mount holds a
      single virtual disk whose device is none of those on the mount. */
  lemma DetailMatchesStatus(c: Context, o: Overview, mount: string)
    requires Active(c, o, mount)
    ensures var step := Steps(c, o, ExtractInventory(o))[2];
            var vdisks, devices := VdiskSlice(o, mount), DeviceSlice(o, mount);
            && (SaysDone(step.detail)
                <==> step.status == Created && (|vdisks| == 1 ==> exists d :: d in devices && Serves(d, vdisks[0])))
            && (step.detail.AllRegistered?
                <==> step.status == Created && |vdisks| != 1 && (|vdisks| == 0 ==> |devices| > 1))
  {
    StatusesOn(c, o, mount);
    SlicesCoincide(o, mount);
    NoneUnregistered(o, mount);
    if |VdiskSlice(o, mount)| == 1 {
      DeviceOfExact(VdiskSlice(o, mount)[0], DeviceSlice(o, mount));
    }
  }

  /** A single virtual disk with the name of a device that is not on the mount: the step is done and its
      detail says that the device is missing. */
  lemma DeviceMissingExample(c: Context, o: Overview, mount: string, v: Vdisk)
    requires Active(c, o, mount) && VdiskSlice(o, mount) == [v] && DeviceSlice(o, mount) == []
    requires v.scstDeviceNames != []
    ensures var step := Steps(c, o, ExtractInventory(o))[2]; step.status == Created && step.detail == DeviceMissing
  {
    StatusesOn(c, o, mount);
    SlicesCoincide(o, mount);
    FilterAll(Registered([]), [v]);
    DeviceOfExact(v, []);
  }

  /** One mount with one virtual disk, whose device is flagged as mapped although there is no LUN. */
  ghost predicate Stale(o: Overview, m: Mount, v: Vdisk, d: Device) {
    && o.mounts == [m] && m.mounted && m.ready && m.role == FileioData && m.mountPoint != ""
    && o.vdisks == [v] && v.mountPoint == m.mountPoint && d.filename == v.path
    && o.devices == [d] && d.filename != "" && OnMount(d.filename, m.mountPoint) && d.mapped && o.luns == []
  }

  lemma StaleSlices(o: Overview, m: Mount, v: Vdisk, d: Device)
    requires Stale(o, m, v, d)
    ensures VdiskSlice(o, m.mountPoint) == [v] && DeviceSlice(o, m.mountPoint) == [d]
    ensures Filter(Unregistered([d]), [v]) == [] && Filter(UnmappedIn(o.luns), [d]) == []
    ensures MountLuns(o, m.mountPoint) == []
  {
    FilterAll(VdiskOn(m.mountPoint), [v]);
    FilterAll(DeviceOn(m.mountPoint), [d]);
    assert d in [d];
    FilterNone(Unregistered([d]), [v]);
    FilterNone(UnmappedIn(o.luns), [d]);
  }

  /** All four steps are shown as done, and exposing is still recommended. */
  lemma StaleFlagExample(c: Context, o: Overview, m: Mount, v: Vdisk, d: Device)
    requires TotalOrder(c.le) && Stale(o, m, v, d)
    ensures AllCreated(c, o) && NextAction(c, o) == ExposeAny
  {
    PickSound(c.le, c.roots, o.mounts, None, c.active);
    assert m in o.mounts;
    assert Active(c, o, m.mountPoint);
    StaleSlices(o, m, v, d);
    AllCreatedOn(c, o, m.mountPoint);
    assert m in Filter(IsReady(), o.mounts) && m in ReadyMounts(o);
    AllCreatedNext(c, o, m.mountPoint);
  }
}
