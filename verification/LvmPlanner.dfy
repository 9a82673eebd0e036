/** The recommended next action of LVM provisioning and its steps, `utils/lvm-provisioning-chain.ts`. */
module LvmPlanner {
  import opened Sequences
  import opened Text
  import opened LvmAvailability

  datatype CandidateKind = Md | HwRaidLd | PlainDisk
  datatype Candidate = Candidate(path: string, kind: CandidateKind, eligible: bool)

  /** A physical volume. An empty `vgName` means that no group owns it. */
  datatype Pv = Pv(path: string, vgName: string)

  datatype Context = Context(
    candidates: seq<Candidate>, pvs: seq<Pv>, vgs: seq<Group>, lvs: seq<Volume>,
    readOnly: bool, critical: Option<string>)

  datatype StepId = Source | PvStep | VgStep | LvStep | ScstStep

  datatype Action =
    | ReadOnly | BlockedBySymmetry(reason: string) | BlockedByCluster | NeedSource
    | CreatePv(path: string) | CreateVg(pv: string) | NoFreePv | CreateLv(vg: string) | NoSpace
    | BindScst(lv: Volume) | Complete

  predicate IsBlocked(a: Action) { a.BlockedBySymmetry? || a.BlockedByCluster? || a.NoFreePv? || a.NoSpace? }

  function Usable(): Candidate -> bool { (c: Candidate) => c.eligible && !StartsWith(c.path, "hw:") }
  function IsRaid(): Candidate -> bool { (c: Candidate) => c.kind == Md || c.kind == HwRaidLd }
  function IsOrphan(): Pv -> bool { (p: Pv) => p.vgName == "" }
  function Unbound(): Volume -> bool { (l: Volume) => CanBindScst(l) }

  /** `pickSourcePath`: RAID first, then any usable device, then a physical volume. */
  function PickSourcePath(candidates: seq<Candidate>, pvs: seq<Pv>): Option<string> {
    var usable := Filter(Usable(), candidates);
    var raid := Find(IsRaid(), usable);
    if raid.Some? then Some(raid.value.path)
    else if |usable| > 0 then Some(usable[0].path)
    else if |pvs| > 0 then Some(pvs[0].path)
    else None
  }

  /** The first of the groups with the most free space. */
  function MostFree(vgs: seq<Group>): (r: Group)
    requires vgs != []
    ensures r in vgs
    ensures forall v :: v in vgs ==> v.freeBytes <= r.freeBytes
  {
    if |vgs| == 1 then vgs[0]
    else
      var best := MostFree(vgs[..|vgs| - 1]);
      assert forall v :: v in vgs <==> v in vgs[..|vgs| - 1] || v == vgs[|vgs| - 1];
      if vgs[|vgs| - 1].freeBytes > best.freeBytes then vgs[|vgs| - 1] else best
  }

  predicate HasClustered(vgs: seq<Group>) { exists v :: v in vgs && v.clustered }

  /** `computeLvmNextAction`. */
  function NextAction(c: Context): Action {
    if c.readOnly then ReadOnly
    else if c.critical.Some? then BlockedBySymmetry(c.critical.value)
    else if HasClustered(c.vgs) then BlockedByCluster
    else if c.pvs == [] then
      var path := PickSourcePath(c.candidates, c.pvs);
      if path.Some? && path.value != "" then CreatePv(path.value) else NeedSource
    else if c.vgs == [] then
      var orphans := Filter(IsOrphan(), c.pvs);
      if |orphans| > 0 then CreateVg(orphans[0].path) else NoFreePv
    else if c.lvs == [] then
      var free := VgsWithFreeSpace(c.vgs);
      if |free| > 0 && MostFree(free).freeBytes > 0 then CreateLv(MostFree(free).name) else NoSpace
    else
      var unbound := Find(Unbound(), c.lvs);
      if unbound.Some? then BindScst(unbound.value) else Complete
  }

  function NextStep(a: Action): StepId {
    match a
    case ReadOnly | NeedSource => Source
    case CreatePv(_) => PvStep
    case BlockedBySymmetry(_) | BlockedByCluster | CreateVg(_) | NoFreePv => VgStep
    case CreateLv(_) | NoSpace => LvStep
    case BindScst(_) | Complete => ScstStep
  }

  // --- The steps ------------------------------------------------------------------------

  datatype Status = Next | Blocked | Created | Missing | Ready

  function BaseStatus(satisfied: bool, missing: bool, blocked: bool, next: StepId, step: StepId): Status {
    if next == step then Next else if blocked then Blocked else if satisfied then Created
    else if missing then Missing else Ready
  }

  predicate SomeBound(c: Context) { exists l :: l in c.lvs && !CanBindScst(l) }

  /** `buildProvisioningChain`: the status of each step. */
  function StepStatus(c: Context, step: StepId): Status {
    var a := NextAction(c);
    var source := PickSourcePath(c.candidates, c.pvs);
    var known := source.Some? && source.value != "";
    var halted := c.readOnly || c.critical.Some?;
    match step
    case Source =>
      BaseStatus(known && (c.pvs != [] || exists x :: x in c.candidates && x.eligible), !known && c.pvs == [],
                 c.readOnly || (c.critical.Some? && c.pvs == []), NextStep(a), Source)
    case PvStep => BaseStatus(c.pvs != [], c.pvs == [] && known, halted, NextStep(a), PvStep)
    case VgStep =>
      BaseStatus(c.vgs != [], c.pvs != [] && c.vgs == [],
                 halted || HasClustered(c.vgs)
                 || (IsBlocked(a) && NextStep(a) == VgStep && Filter(IsOrphan(), c.pvs) == []),
                 NextStep(a), VgStep)
    case LvStep =>
      BaseStatus(c.lvs != [], c.vgs != [] && c.lvs == [], halted || (IsBlocked(a) && NextStep(a) == LvStep),
                 NextStep(a), LvStep)
    case ScstStep =>
      if SomeBound(c) then Created
      else BaseStatus(false, c.lvs != [], halted, NextStep(a), ScstStep)
  }

  /** The one step the chain shows as next is that of the next action. It shows none exactly when
      the action is at the SCST step and some volume is linked already. */
  lemma ChainExact(c: Context, step: StepId)
    ensures StepStatus(c, step) == Next
       <==> step == NextStep(NextAction(c)) && !(step == ScstStep && SomeBound(c))
  {
  }

  /** The chain calls the SCST step done while binding is recommended exactly when the planner is at
      the binding of a further volume. */
  lemma ChainHidesBinding(c: Context)
    ensures StepStatus(c, ScstStep) == Created && NextAction(c).BindScst?
       <==> !c.readOnly && c.critical.None? && !HasClustered(c.vgs) && c.pvs != [] && c.vgs != []
            && SomeBound(c) && exists l :: l in c.lvs && CanBindScst(l)
  {
  }

  // --- Following the planner ------------------------------------------------------------

  /** The planner can get to the end from here: nothing stops it, and every stage that is still to be
      passed has what it needs. */
  ghost predicate Passable(c: Context) {
    && !c.readOnly && c.critical.None? && !HasClustered(c.vgs)
    && (c.pvs == [] ==> PickSourcePath(c.candidates, c.pvs).Some? && PickSourcePath(c.candidates, c.pvs).value != "")
    && (forall p :: p in c.pvs && p.vgName != "" ==> exists v :: v in c.vgs && v.name == p.vgName)
    && (c.vgs != [] && c.lvs == [] ==> exists v :: v in c.vgs && v.freeBytes > 0)
  }

  function UnboundCount(lvs: seq<Volume>): nat { |Filter(Unbound(), lvs)| }

  /** The number of steps left. */
  function Rank(c: Context): nat {
    (if c.pvs == [] then 1 else 0) + (if c.vgs == [] then 1 else 0)
    + if c.lvs == [] then 2 else UnboundCount(c.lvs)
  }

  /** A physical volume after a group was made of the one at `path`. */
  predicate Joined(p: Pv, q: Pv, path: string, vg: string) {
    q.path == p.path && (if p.path == path && p.vgName == "" then q.vgName == vg else q.vgName == p.vgName)
  }

  ghost predicate VgMade(c: Context, d: Context, path: string, v: Group) {
    && v.name != "" && !v.clustered && v.freeBytes > 0 && d.vgs == c.vgs + [v] && d.lvs == c.lvs
    && |d.pvs| == |c.pvs| && forall i :: 0 <= i < |c.pvs| ==> Joined(c.pvs[i], d.pvs[i], path, v.name)
  }

  ghost predicate LvMade(c: Context, d: Context, vg: string, l: Volume) {
    && l.vgName == vg && CanBindScst(l) && d.lvs == c.lvs + [l] && d.pvs == c.pvs && |d.vgs| == |c.vgs|
    && forall i :: 0 <= i < |c.vgs| ==> d.vgs[i].name == c.vgs[i].name && d.vgs[i].clustered == c.vgs[i].clustered
  }

  ghost predicate LvBound(c: Context, d: Context, lv: Volume, i: nat, l: Volume) {
    && i < |c.lvs| && c.lvs[i] == lv && !CanBindScst(l) && d.lvs == c.lvs[i := l] && d.pvs == c.pvs && d.vgs == c.vgs
  }

  /** What performing an action is meant to change. Candidates may change in any way, and creating a
      volume may use up any free space. */
  ghost predicate Performed(c: Context, a: Action, d: Context) {
    && !d.readOnly && d.critical.None?
    && match a
       case CreatePv(path) => d.pvs == c.pvs + [Pv(path, "")] && d.vgs == c.vgs && d.lvs == c.lvs
       case CreateVg(path) => exists v :: VgMade(c, d, path, v)
       case CreateLv(vg) => exists l :: LvMade(c, d, vg, l)
       case BindScst(lv) => exists i, l :: LvBound(c, d, lv, i, l)
       case _ => d == c
  }

  /** From a passable state the planner never says "blocked", "read only" or "need a source", and it
      says "complete" exactly when no step is left. */
  lemma NeverBlocked(c: Context)
    requires Passable(c)
    ensures var a := NextAction(c);
            !IsBlocked(a) && !a.ReadOnly? && !a.NeedSource? && (a.Complete? <==> Rank(c) == 0)
  {
    if c.pvs != [] && c.vgs == [] {
      assert c.pvs[0] in c.pvs;
      assert c.pvs[0] in Filter(IsOrphan(), c.pvs);
    }
    if c.pvs != [] && c.vgs != [] && c.lvs == [] {
      var v :| v in c.vgs && v.freeBytes > 0;
      assert v in VgsWithFreeSpace(c.vgs);
    }
    if c.lvs != [] {
      var unbound := Filter(Unbound(), c.lvs);
      assert unbound != [] ==> unbound[0] in unbound;
      assert Find(Unbound(), c.lvs).Some? ==> Find(Unbound(), c.lvs).value in unbound;
    }
  }

  lemma CountLast(init: seq<Volume>, last: Volume)
    ensures UnboundCount(init + [last]) == UnboundCount(init) + if CanBindScst(last) then 1 else 0
  {
    assert (init + [last])[..|init|] == init;
  }

  lemma {:induction false} BindOne(lvs: seq<Volume>, i: nat, l: Volume)
    requires i < |lvs| && CanBindScst(lvs[i]) && !CanBindScst(l)
    ensures UnboundCount(lvs[i := l]) == UnboundCount(lvs) - 1
  {
    var init, last := lvs[..|lvs| - 1], lvs[|lvs| - 1];
    assert lvs == init + [last];
    CountLast(init, last);
    if i == |init| {
      assert lvs[i := l] == init + [l];
      CountLast(init, l);
    } else {
      assert lvs[i := l] == init[i := l] + [last];
      CountLast(init[i := l], last);
      BindOne(init, i, l);
    }
  }

  lemma PvStepDone(c: Context, d: Context)
    requires Passable(c) && NextAction(c).CreatePv? && Performed(c, NextAction(c), d)
    ensures Passable(d) && Rank(d) == Rank(c) - 1
  {
  }

  lemma VgStepDone(c: Context, d: Context)
    requires Passable(c) && NextAction(c).CreateVg? && Performed(c, NextAction(c), d)
    ensures Passable(d) && Rank(d) == Rank(c) - 1
  {
    var path := NextAction(c).pv;
    var v :| VgMade(c, d, path, v);
    assert d.vgs == [v] && v in d.vgs;
    forall p | p in d.pvs && p.vgName != "" ensures exists w :: w in d.vgs && w.name == p.vgName {
      var i :| 0 <= i < |d.pvs| && d.pvs[i] == p;
      assert Joined(c.pvs[i], d.pvs[i], path, v.name) && c.pvs[i] in c.pvs;
    }
  }

  lemma GroupsKept(c: Context, d: Context, l: Volume)
    requires Passable(c) && c.vgs != [] && LvMade(c, d, l.vgName, l) && !d.readOnly && d.critical.None? && c.pvs != []
    ensures Passable(d)
  {
    forall w | w in d.vgs ensures !w.clustered {
      var i :| 0 <= i < |d.vgs| && d.vgs[i] == w;
      assert c.vgs[i] in c.vgs;
    }
    forall p | p in d.pvs && p.vgName != "" ensures exists w :: w in d.vgs && w.name == p.vgName {
      var v :| v in c.vgs && v.name == p.vgName;
      var i :| 0 <= i < |c.vgs| && c.vgs[i] == v;
      assert d.vgs[i] in d.vgs;
    }
  }

  lemma LvStepDone(c: Context, d: Context)
    requires Passable(c) && NextAction(c).CreateLv? && Performed(c, NextAction(c), d)
    ensures Passable(d) && Rank(d) == Rank(c) - 1
  {
    var l :| LvMade(c, d, NextAction(c).vg, l);
    GroupsKept(c, d, l);
    assert d.lvs == [l] && [l][..0] == [];
    assert Filter(Unbound(), [l]) == [l];
  }

  lemma ScstStepDone(c: Context, d: Context)
    requires Passable(c) && NextAction(c).BindScst? && Performed(c, NextAction(c), d)
    ensures Passable(d) && Rank(d) == Rank(c) - 1
  {
    var lv := NextAction(c).lv;
    var i, l :| LvBound(c, d, lv, i, l);
    BindOne(c.lvs, i, l);
  }

  /** Every recommended action that is performed brings the end one step nearer. */
  lemma StepDone(c: Context, d: Context)
    requires Passable(c) && !NextAction(c).Complete? && Performed(c, NextAction(c), d)
    ensures Passable(d) && Rank(d) == Rank(c) - 1
  {
    NeverBlocked(c);
    match NextAction(c)
    case CreatePv(_) => PvStepDone(c, d);
    case CreateVg(_) => VgStepDone(c, d);
    case CreateLv(_) => LvStepDone(c, d);
    case BindScst(_) => ScstStepDone(c, d);
  }

  ghost predicate Recommended(c: Context, d: Context) {
    !NextAction(c).Complete? && Performed(c, NextAction(c), d)
  }

  // A successor for each action: what it is meant to do can be done.

  lemma GroupCanBeMade(c: Context, path: string) returns (d: Context)
    requires !c.readOnly && c.critical.None?
    ensures Performed(c, CreateVg(path), d)
  {
    var v := Group("vg", 1, false);
    var join := (p: Pv) => if p.path == path && p.vgName == "" then p.(vgName := v.name) else p;
    d := c.(pvs := Map(join, c.pvs), vgs := c.vgs + [v]);
    assert forall i :: 0 <= i < |c.pvs| ==> d.pvs[i] == join(c.pvs[i]);
    assert VgMade(c, d, path, v);
  }

  lemma VolumeCanBeMade(c: Context, vg: string) returns (d: Context)
    requires !c.readOnly && c.critical.None?
    ensures Performed(c, CreateLv(vg), d)
  {
    var l := Volume(vg, "lv", "", None, None);
    d := c.(lvs := c.lvs + [l]);
    assert LvMade(c, d, vg, l);
  }

  lemma VolumeCanBeBound(c: Context, lv: Volume) returns (d: Context)
    requires !c.readOnly && c.critical.None? && lv in c.lvs
    ensures Performed(c, BindScst(lv), d)
  {
    var i: nat :| i < |c.lvs| && c.lvs[i] == lv;
    var l := lv.(scst := None, scstDeviceNames := Some(["dev"]));
    d := c.(lvs := c.lvs[i := l]);
    assert LvBound(c, d, lv, i, l);
  }

  /** From a passable state that is not complete, the recommended action leads somewhere. */
  lemma CanProceed(c: Context) returns (d: Context)
    requires Passable(c) && !NextAction(c).Complete?
    ensures Recommended(c, d)
  {
    NeverBlocked(c);
    match NextAction(c) {
      case CreatePv(path) => d := c.(pvs := c.pvs + [Pv(path, "")]);
      case CreateVg(path) => d := GroupCanBeMade(c, path);
      case CreateLv(vg) => d := VolumeCanBeMade(c, vg);
      case BindScst(lv) => d := VolumeCanBeBound(c, lv);
    }
  }

  /** A run that follows the planner until it is complete, if it ever is. */
  ghost predicate Follows(run: seq<Context>) {
    forall i :: 0 <= i < |run| - 1 ==> Recommended(run[i], run[i + 1])
  }

  lemma FollowsRest(run: seq<Context>)
    requires |run| > 1 && Follows(run)
    ensures Follows(run[1..])
  {
    forall i | 0 <= i < |run[1..]| - 1 ensures Recommended(run[1..][i], run[1..][i + 1]) {
      assert run[1..][i] == run[i + 1] && run[1..][i + 1] == run[i + 1 + 1];
    }
  }

  lemma OneStep(c: Context, d: Context)
    requires Passable(c) && Recommended(c, d)
    ensures !IsBlocked(NextAction(c)) && Passable(d) && Rank(d) == Rank(c) - 1
  {
    NeverBlocked(c);
    StepDone(c, d);
  }

  ghost predicate Unhindered(c: Context) { Passable(c) && !IsBlocked(NextAction(c)) }

  /** Along every run from a passable state the planner is never blocked; the run is complete after
      exactly `Rank` steps and cannot be longer. */
  lemma {:induction false} FollowingTerminates(run: seq<Context>)
    requires run != [] && Passable(run[0]) && Follows(run)
    ensures forall c :: c in run ==> Unhindered(c)
    ensures |run| - 1 <= Rank(run[0])
    ensures NextAction(run[|run| - 1]).Complete? <==> |run| - 1 == Rank(run[0])
  {
    if |run| == 1 {
      NeverBlocked(run[0]);
    } else {
      assert Recommended(run[0], run[0 + 1]);
      OneStep(run[0], run[1]);
      FollowsRest(run);
      FollowingTerminates(run[1..]);
      assert run == [run[0]] + run[1..];
    }
  }

  lemma FollowsExtended(c: Context, rest: seq<Context>)
    requires rest != [] && Follows(rest) && Recommended(c, rest[0])
    ensures Follows([c] + rest)
  {
    var run := [c] + rest;
    forall i | 0 <= i < |run| - 1 ensures Recommended(run[i], run[i + 1]) {
      assert i > 0 ==> run[i] == rest[i - 1] && run[i + 1] == rest[i - 1 + 1];
    }
  }

  /** From every passable state some run that follows the planner is complete in the end. */
  lemma {:induction false} CompletionReachable(c: Context) returns (run: seq<Context>)
    requires Passable(c)
    ensures run != [] && run[0] == c && Follows(run) && NextAction(run[|run| - 1]).Complete?
    decreases Rank(c)
  {
    if NextAction(c).Complete? {
      run := [c];
    } else {
      var d := CanProceed(c);
      OneStep(c, d);
      var rest := CompletionReachable(d);
      FollowsExtended(c, rest);
      run := [c] + rest;
    }
  }

  /** More than three steps and one per unlinked volume are needed from nothing but a source, and only
      from there: volume, group, logical volume, binding. */
  lemma FourFromNothing(c: Context)
    ensures Rank(c) > 3 + UnboundCount(c.lvs) <==> c.pvs == [] && c.vgs == [] && c.lvs == []
    ensures c.pvs == [] && c.vgs == [] && c.lvs == [] ==> Rank(c) == 4
  {
  }

  /** With one volume linked and another not, binding is recommended while its step is shown as done. */
  lemma HiddenBindingExample(c: Context, bound: Volume, unbound: Volume)
    requires !c.readOnly && c.critical.None? && c.pvs != [] && c.vgs != [] && !HasClustered(c.vgs)
    requires c.lvs == [bound, unbound] && !CanBindScst(bound) && CanBindScst(unbound)
    ensures NextAction(c) == BindScst(unbound) && StepStatus(c, ScstStep) == Created
  {
    assert c.lvs[0] in c.lvs;
    FindFirst(Unbound(), c.lvs, 1);
  }
}
