/** Comparing the MD arrays of cluster nodes, `utils/cluster-md-symmetry.ts`. */
module MdSymmetry {
  import opened Sequences

  datatype State = Clean | Active | Degraded | Recovering | Resync | Failed | Other(text: string)

  /** An array as one node reports it; unknown fields are absent. */
  datatype Snapshot = Snapshot(
    name: string, path: string, uuid: Option<string>, state: State, raidLevel: Option<string>,
    raidDevices: Option<int>, activeDevices: Option<int>, memberCount: Option<int>,
    sizeBytes: Option<int>, failedDevices: Option<int>)

  /** A node and its arrays. A node that sends no list of arrays counts as one with none. */
  datatype Node = Node(id: string, title: string, arrays: seq<Snapshot>)

  /** One array on one node. */
  datatype Copy = Copy(id: string, title: string, snapshot: Snapshot)

  datatype Health = Healthy | Weakened | Broken

  /** A structural issue with its parameters. `MissingUncoded` is the one issue the source pushes
      without a code and without parameters. */
  datatype Issue =
    | MissingOnPeer(arrayName: string, peer: string)
    | LevelDiffers(arrayName: string, localLevel: string, peerLevel: string, peer: string)
    | DeviceCountDiffers(arrayName: string, localCount: int, peerCount: int, peer: string)
    | ActiveDevicesDiffer(arrayName: string, localActive: int, localTotal: int, peerActive: int, peerTotal: int,
                          peer: string)
    | MemberCountDiffers(arrayName: string, localCount: int, peerCount: int, peer: string)
    | StateDiffers(arrayName: string, localState: State, peerState: State, peer: string)
    | SizeDiffers(arrayName: string, peer: string)
    | FailedDevicesDiffer(arrayName: string, localFailed: int, peerFailed: int, peer: string)
    | MissingUncoded(arrayName: string, peer: string)

  const TOLERANCE_MIN_BYTES: int := 4 * 1024 * 1024

  function Max(a: int, b: int): int { if a < b then b else a }
  function Distance(a: int, b: int): nat { if a < b then b - a else a - b }

  predicate SizesClose(a: Option<int>, b: Option<int>) {
    a.None? || b.None?
    || Distance(a.value, b.value) <= TOLERANCE_MIN_BYTES
    || 100 * Distance(a.value, b.value) <= Max(Max(a.value, b.value), 1)
  }

  function HealthBucket(state: State): Health {
    match state
    case Clean | Active => Healthy
    case Degraded | Recovering | Resync => Weakened
    case Failed => Broken
    case Other(_) => Weakened
  }

  predicate IsActive(s: Snapshot) { !s.state.Other? }

  function OrElse(o: Option<int>, d: int): int { if o.Some? then o.value else d }

  function Named(name: string): Snapshot -> bool { (s: Snapshot) => s.name == name }
  function NamedActive(name: string): Snapshot -> bool { (s: Snapshot) => s.name == name && IsActive(s) }
  function ActiveOnly(): Snapshot -> bool { (s: Snapshot) => IsActive(s) }
  function NameOf(): Snapshot -> string { (s: Snapshot) => s.name }
  function ActiveCopy(): Copy -> bool { (n: Copy) => IsActive(n.snapshot) }

  // --- Comparing two copies -------------------------------------------------------------

  function LevelIssue(name: string, a: Snapshot, n: Copy): seq<Issue> {
    if a.raidLevel.Some? && n.snapshot.raidLevel.Some? && a.raidLevel != n.snapshot.raidLevel
    then [LevelDiffers(name, a.raidLevel.value, n.snapshot.raidLevel.value, n.title)] else []
  }

  function DeviceCountIssue(name: string, a: Snapshot, n: Copy): seq<Issue> {
    if a.raidDevices.Some? && n.snapshot.raidDevices.Some? && a.raidDevices != n.snapshot.raidDevices
    then [DeviceCountDiffers(name, a.raidDevices.value, n.snapshot.raidDevices.value, n.title)] else []
  }

  function ActiveDevicesIssue(name: string, a: Snapshot, n: Copy): seq<Issue> {
    var s := n.snapshot;
    if a.activeDevices.Some? && s.activeDevices.Some? && a.activeDevices != s.activeDevices
    then [ActiveDevicesDiffer(name, a.activeDevices.value, OrElse(a.raidDevices, a.activeDevices.value),
                              s.activeDevices.value, OrElse(s.raidDevices, s.activeDevices.value), n.title)] else []
  }

  function MemberCountIssue(name: string, a: Snapshot, n: Copy): seq<Issue> {
    if a.memberCount.Some? && n.snapshot.memberCount.Some? && a.memberCount != n.snapshot.memberCount
    then [MemberCountDiffers(name, a.memberCount.value, n.snapshot.memberCount.value, n.title)] else []
  }

  function StateIssue(name: string, a: Snapshot, n: Copy): seq<Issue> {
    if HealthBucket(a.state) != HealthBucket(n.snapshot.state)
    then [StateDiffers(name, a.state, n.snapshot.state, n.title)] else []
  }

  function SizeIssue(name: string, a: Snapshot, n: Copy): seq<Issue> {
    if !SizesClose(a.sizeBytes, n.snapshot.sizeBytes) then [SizeDiffers(name, n.title)] else []
  }

  function FailedIssue(name: string, a: Snapshot, n: Copy): seq<Issue> {
    var mine, theirs := OrElse(a.failedDevices, 0), OrElse(n.snapshot.failedDevices, 0);
    if mine != theirs then [FailedDevicesDiffer(name, mine, theirs, n.title)] else []
  }

  function LayoutIssues(name: string, a: Snapshot, n: Copy): seq<Issue> {
    LevelIssue(name, a, n) + DeviceCountIssue(name, a, n) + ActiveDevicesIssue(name, a, n)
    + MemberCountIssue(name, a, n)
  }

  function ConditionIssues(name: string, a: Snapshot, n: Copy): seq<Issue> {
    StateIssue(name, a, n) + SizeIssue(name, a, n) + FailedIssue(name, a, n)
  }

  function CopyIssues(name: string, a: Snapshot): Copy -> seq<Issue> {
    (n: Copy) => LayoutIssues(name, a, n) + ConditionIssues(name, a, n)
  }

  /** Every active copy against the first. */
  function CompareCopies(name: string, copies: seq<Copy>): seq<Issue> {
    var active := Filter(ActiveCopy(), copies);
    if active == [] then [] else FlatMap(CopyIssues(name, active[0].snapshot), active[1..])
  }

  // --- One array over the cluster -------------------------------------------------------

  /** The array as seen on this node: its first active copy of that name. */
  function LocalCopy(local: Node, name: string): seq<Copy> {
    var found := Find(NamedActive(name), local.arrays);
    if found.Some? then [Copy(local.id, local.title, found.value)] else []
  }

  /** The first array of that name on a peer, if it is active. */
  predicate PeerActive(peer: Node, name: string) {
    var found := Find(Named(name), peer.arrays);
    found.Some? && IsActive(found.value)
  }

  function PeerCopy(local: Node, name: string): Node -> seq<Copy> {
    (peer: Node) =>
      if peer.id != local.id && PeerActive(peer, name)
      then [Copy(peer.id, peer.title, Find(Named(name), peer.arrays).value)] else []
  }

  function Copies(local: Node, peers: seq<Node>, name: string): seq<Copy> {
    LocalCopy(local, name) + FlatMap(PeerCopy(local, name), peers)
  }

  function MissingOn(local: Node, name: string): Node -> seq<Issue> {
    (peer: Node) =>
      if peer.id != local.id && !PeerActive(peer, name) && LocalCopy(local, name) != []
      then [MissingOnPeer(name, peer.title)] else []
  }

  /** Some reported "missing" issue names this peer. The uncoded issue has no parameters to match. */
  predicate Reported(issues: seq<Issue>, peer: string) {
    exists i :: i in issues && i.MissingOnPeer? && i.peer == peer
  }

  /** What the second pass over the peers pushes for one of them. */
  function MissingAgain(local: Node, name: string, issues: seq<Issue>, peer: Node): seq<Issue> {
    if peer.id == local.id then []
    else
      var peerHas := exists s :: s in peer.arrays && NamedActive(name)(s);
      if !peerHas && !Reported(issues, peer.title)
         && (!(exists s :: s in peer.arrays && IsActive(s)) || Find(Named(name), peer.arrays).None?)
      then [MissingUncoded(name, peer.title)] else []
  }

  /** The whole second pass: every peer is checked against the issues found so far. */
  function SecondPass(local: Node, name: string, issues: seq<Issue>, peers: seq<Node>): seq<Issue> {
    if peers == [] then issues
    else
      var before := SecondPass(local, name, issues, peers[..|peers| - 1]);
      before + MissingAgain(local, name, before, peers[|peers| - 1])
  }

  function Gathered(local: Node, peers: seq<Node>, name: string): seq<Issue> {
    var first := FlatMap(MissingOn(local, name), peers);
    var second := if LocalCopy(local, name) == [] then first else SecondPass(local, name, first, peers);
    second + CompareCopies(name, Copies(local, peers, name))
  }

  // --- Removing repeated issues ---------------------------------------------------------

  /** Code and parameters. All issues but the uncoded one are determined by them. */
  datatype Key = Coded(issue: Issue) | Uncoded

  function KeyOf(i: Issue): Key { if i.MissingUncoded? then Uncoded else Coded(i) }

  /** `Map.set`: a known key keeps its place and takes the new value. */
  function Put(s: seq<Issue>, x: Issue): seq<Issue> {
    if s == [] then [x]
    else if KeyOf(s[0]) == KeyOf(x) then [x] + s[1..]
    else [s[0]] + Put(s[1..], x)
  }

  function ByKey(issues: seq<Issue>): seq<Issue> {
    if issues == [] then [] else Put(ByKey(issues[..|issues| - 1]), issues[|issues| - 1])
  }

  // --- Identity of the arrays -----------------------------------------------------------

  datatype Report = Report(id: string, title: string, running: bool, uuid: Option<string>, path: string)

  function ReportOf(n: Node, name: string): seq<Report> {
    var found := Find(Named(name), n.arrays);
    if found.None? then []
    else [Report(n.id, n.title, found.value.state.Clean? || found.value.state.Active?,
                 found.value.uuid, found.value.path)]
  }

  function PeerReport(local: Node, name: string): Node -> seq<Report> {
    (peer: Node) => if peer.id == local.id then [] else ReportOf(peer, name)
  }

  function Reports(local: Node, peers: seq<Node>, name: string): seq<Report> {
    ReportOf(local, name) + FlatMap(PeerReport(local, name), peers)
  }

  function HasUuid(): Report -> bool { (r: Report) => r.running && r.uuid.Some? && r.uuid.value != "" }
  function UuidOf(): Report -> string { (r: Report) => if r.uuid.Some? then r.uuid.value else "" }

  function Holders(reports: seq<Report>): seq<Report> { Filter(HasUuid(), reports) }
  function UniqueUuids(reports: seq<Report>): seq<string> { Dedup(Map(UuidOf(), Holders(reports))) }

  datatype Mismatch = Mismatch(arrayName: string, holders: seq<Report>, uuids: seq<string>)

  function MismatchFrom(name: string, reports: seq<Report>): seq<Mismatch> {
    if |UniqueUuids(reports)| > 1 && |Holders(reports)| >= 2
    then [Mismatch(name, Holders(reports), UniqueUuids(reports))] else []
  }

  function MismatchOf(local: Node, peers: seq<Node>): string -> seq<Mismatch> {
    (name: string) => MismatchFrom(name, Reports(local, peers, name))
  }

  function AllNames(): Node -> seq<string> { (n: Node) => Map(NameOf(), n.arrays) }
  function ActiveNames(): Node -> seq<string> { (n: Node) => Map(NameOf(), Filter(ActiveOnly(), n.arrays)) }

  function NamesIn(names: Node -> seq<string>, local: Node, peers: seq<Node>): seq<string> {
    Dedup(names(local) + FlatMap(names, peers))
  }

  /** `findClusterUuidMismatches` in shared-identity mode. */
  function UuidMismatches(local: Node, peers: seq<Node>): seq<Mismatch> {
    FlatMap(MismatchOf(local, peers), NamesIn(AllNames(), local, peers))
  }

  datatype ArrayResult = ArrayResult(arrayName: string, symmetric: bool, issues: seq<Issue>, mismatch: seq<Mismatch>)

  function ResultOf(local: Node, peers: seq<Node>): string -> ArrayResult {
    (name: string) =>
      var issues := ByKey(Gathered(local, peers, name));
      ArrayResult(name, |issues| == 0, issues, MismatchOf(local, peers)(name))
  }

  /** `findLocalSymmetricStructuralIssues`. */
  function SymmetryResults(local: Node, peers: seq<Node>): seq<ArrayResult> {
    Map(ResultOf(local, peers), NamesIn(ActiveNames(), local, peers))
  }

  // --- The loops ------------------------------------------------------------------------

  method CompareSnapshotsForArray(name: string, copies: seq<Copy>) returns (issues: seq<Issue>)
    ensures issues == CompareCopies(name, copies)
  {
    issues := [];
    var active := Filter(ActiveCopy(), copies);
    if |active| == 0 {
      return;
    }
    var reference, rest := active[0].snapshot, active[1..];
    for i := 0 to |rest|
      invariant issues == FlatMap(CopyIssues(name, reference), rest[..i])
    {
      FlatMapStep(CopyIssues(name, reference), rest, i);
      var found := CompareCopy(name, reference, rest[i]);
      issues := issues + found;
    }
    assert rest[..|rest|] == rest;
  }

  method CompareCopy(name: string, reference: Snapshot, n: Copy) returns (issues: seq<Issue>)
    ensures issues == CopyIssues(name, reference)(n)
  {
    var layout := CompareLayout(name, reference, n);
    var condition := CompareCondition(name, reference, n);
    issues := layout + condition;
  }

  method CompareLayout(name: string, reference: Snapshot, n: Copy) returns (issues: seq<Issue>)
    ensures issues == LayoutIssues(name, reference, n)
  {
    var s := n.snapshot;
    issues := [];
    if reference.raidLevel.Some? && s.raidLevel.Some? && reference.raidLevel != s.raidLevel {
      issues := issues + [LevelDiffers(name, reference.raidLevel.value, s.raidLevel.value, n.title)];
    }
    assert issues == LevelIssue(name, reference, n);
    if reference.raidDevices.Some? && s.raidDevices.Some? && reference.raidDevices != s.raidDevices {
      issues := issues + [DeviceCountDiffers(name, reference.raidDevices.value, s.raidDevices.value, n.title)];
    }
    assert issues == LevelIssue(name, reference, n) + DeviceCountIssue(name, reference, n);
    if reference.activeDevices.Some? && s.activeDevices.Some? && reference.activeDevices != s.activeDevices {
      issues := issues + [ActiveDevicesDiffer(name,
        reference.activeDevices.value, OrElse(reference.raidDevices, reference.activeDevices.value),
        s.activeDevices.value, OrElse(s.raidDevices, s.activeDevices.value), n.title)];
    }
    assert issues == LevelIssue(name, reference, n) + DeviceCountIssue(name, reference, n)
                     + ActiveDevicesIssue(name, reference, n);
    if reference.memberCount.Some? && s.memberCount.Some? && reference.memberCount != s.memberCount {
      issues := issues + [MemberCountDiffers(name, reference.memberCount.value, s.memberCount.value, n.title)];
    }
  }

  method CompareCondition(name: string, reference: Snapshot, n: Copy) returns (issues: seq<Issue>)
    ensures issues == ConditionIssues(name, reference, n)
  {
    var s := n.snapshot;
    issues := [];
    if HealthBucket(reference.state) != HealthBucket(s.state) {
      issues := issues + [StateDiffers(name, reference.state, s.state, n.title)];
    }
    if !SizesClose(reference.sizeBytes, s.sizeBytes) {
      issues := issues + [SizeDiffers(name, n.title)];
    }
    var mine, theirs := OrElse(reference.failedDevices, 0), OrElse(s.failedDevices, 0);
    if mine != theirs {
      issues := issues + [FailedDevicesDiffer(name, mine, theirs, n.title)];
    }
  }

  method BuildActiveMdNodeReports(local: Node, peers: seq<Node>, name: string) returns (reports: seq<Report>)
    ensures reports == Reports(local, peers, name)
  {
    reports := ReportOf(local, name);
    ghost var mine := reports;
    for i := 0 to |peers|
      invariant reports == mine + FlatMap(PeerReport(local, name), peers[..i])
    {
      FlatMapStep(PeerReport(local, name), peers, i);
      AppendAssociative(mine, FlatMap(PeerReport(local, name), peers[..i]), PeerReport(local, name)(peers[i]));
      if peers[i].id == local.id {
        continue;
      }
      reports := reports + ReportOf(peers[i], name);
    }
    assert peers[..|peers|] == peers;
  }

  method FindClusterUuidMismatches(local: Node, peers: seq<Node>, sharedIdentity: bool)
    returns (mismatches: seq<Mismatch>)
    ensures mismatches == if sharedIdentity then UuidMismatches(local, peers) else []
  {
    mismatches := [];
    if !sharedIdentity {
      return;
    }
    var names := NamesIn(AllNames(), local, peers);
    for i := 0 to |names|
      invariant mismatches == FlatMap(MismatchOf(local, peers), names[..i])
    {
      FlatMapStep(MismatchOf(local, peers), names, i);
      var reports := BuildActiveMdNodeReports(local, peers, names[i]);
      if |UniqueUuids(reports)| <= 1 || |Holders(reports)| < 2 {
        continue;
      }
      mismatches := mismatches + [Mismatch(names[i], Holders(reports), UniqueUuids(reports))];
    }
    assert names[..|names|] == names;
  }

  /** The first loop over the peers: active copies are collected, missing ones reported. */
  method CollectCopies(local: Node, peers: seq<Node>, name: string)
    returns (copies: seq<Copy>, issues: seq<Issue>)
    ensures copies == Copies(local, peers, name)
    ensures issues == FlatMap(MissingOn(local, name), peers)
  {
    var mine := LocalCopy(local, name);
    copies, issues := mine, [];
    for i := 0 to |peers|
      invariant copies == mine + FlatMap(PeerCopy(local, name), peers[..i])
      invariant issues == FlatMap(MissingOn(local, name), peers[..i])
    {
      FlatMapStep(PeerCopy(local, name), peers, i);
      FlatMapStep(MissingOn(local, name), peers, i);
      AppendAssociative(mine, FlatMap(PeerCopy(local, name), peers[..i]), PeerCopy(local, name)(peers[i]));
      if peers[i].id == local.id {
        continue;
      }
      var found := Find(Named(name), peers[i].arrays);
      if found.Some? && IsActive(found.value) {
        copies := copies + [Copy(peers[i].id, peers[i].title, found.value)];
      } else if mine != [] {
        issues := issues + [MissingOnPeer(name, peers[i].title)];
      }
    }
    assert peers[..|peers|] == peers;
  }

  /** The second loop over the peers. */
  method CheckPeersAgain(local: Node, peers: seq<Node>, name: string, issues: seq<Issue>)
    returns (out: seq<Issue>)
    ensures out == SecondPass(local, name, issues, peers)
  {
    out := issues;
    for i := 0 to |peers|
      invariant out == SecondPass(local, name, issues, peers[..i])
    {
      assert peers[..i + 1][..i] == peers[..i];
      if peers[i].id == local.id {
        continue;
      }
      var peer := peers[i];
      var peerHas := exists s :: s in peer.arrays && NamedActive(name)(s);
      if !peerHas && !Reported(out, peer.title) {
        var elsewhere := exists s :: s in peer.arrays && IsActive(s);
        if !elsewhere || Find(Named(name), peer.arrays).None? {
          out := out + [MissingUncoded(name, peer.title)];
        }
      }
    }
    assert peers[..|peers|] == peers;
  }

  method FindLocalSymmetricStructuralIssues(local: Node, peers: seq<Node>) returns (results: seq<ArrayResult>)
    ensures results == SymmetryResults(local, peers)
  {
    var names := NamesIn(ActiveNames(), local, peers);
    results := [];
    for i := 0 to |names|
      invariant results == Map(ResultOf(local, peers), names[..i])
    {
      assert names[..i + 1][..i] == names[..i];
      var r := AssessArray(local, peers, names[i]);
      results := results + [r];
    }
    assert names[..|names|] == names;
  }

  method AssessArray(local: Node, peers: seq<Node>, name: string) returns (r: ArrayResult)
    ensures r == ResultOf(local, peers)(name)
  {
    var gathered := GatherIssues(local, peers, name);
    var issues := ByKey(gathered);
    var mismatch := CheckIdentity(local, peers, name);
    r := ArrayResult(name, |issues| == 0, issues, mismatch);
  }

  method GatherIssues(local: Node, peers: seq<Node>, name: string) returns (issues: seq<Issue>)
    ensures issues == Gathered(local, peers, name)
  {
    var copies;
    copies, issues := CollectCopies(local, peers, name);
    if LocalCopy(local, name) != [] {
      issues := CheckPeersAgain(local, peers, name, issues);
    }
    var differing := CompareSnapshotsForArray(name, copies);
    issues := issues + differing;
  }

  method CheckIdentity(local: Node, peers: seq<Node>, name: string) returns (mismatch: seq<Mismatch>)
    ensures mismatch == MismatchOf(local, peers)(name)
  {
    var reports := BuildActiveMdNodeReports(local, peers, name);
    mismatch := if |UniqueUuids(reports)| > 1 && |Holders(reports)| >= 2
      then [Mismatch(name, Holders(reports), UniqueUuids(reports))] else [];
  }
}
