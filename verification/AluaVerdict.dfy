/** What the verdict of the ALUA checker means: which codes each pass raises, that the verdict
    does not depend on the order of the nodes, and exactly when it is `ok`. */
module AluaVerdict {
  import opened Sequences
  import opened Collation
  import opened AluaModel
  import opened AluaCompare

  // --- Codes of lists of issues ---------------------------------------------------------

  lemma CodesConcat(a: seq<Issue>, b: seq<Issue>)
    ensures Codes(a + b) == Codes(a) + Codes(b)
  {
    forall c ensures c in Codes(a + b) <==> c in Codes(a) + Codes(b) {
      if c in Codes(a) + Codes(b) {
        var i :| (i in a || i in b) && i.code == c;
        assert i in a + b;
      }
    }
  }

  lemma CodesFlatMap<A>(f: A -> seq<Issue>, s: seq<A>, c: Code)
    ensures c in Codes(FlatMap(f, s)) <==> exists x :: x in s && c in Codes(f(x))
  {
    if c in Codes(FlatMap(f, s)) {
      var i :| i in FlatMap(f, s) && i.code == c;
      FlatMapMember(f, s, i);
      var x :| x in s && i in f(x);
      assert c in Codes(f(x));
    }
    if x :| x in s && c in Codes(f(x)) {
      var i :| i in f(x) && i.code == c;
      FlatMapMember(f, s, i);
    }
  }

  /** The verdict as a function of the set of codes alone. */
  ghost function Judge(codes: set<Code>): Health {
    if InvalidTargetReference in codes then HealthInvalidRefs
    else if !(codes !! ASYMMETRIC) then HealthAsymmetric
    else if MissingAluaConfig in codes then HealthMissing
    else if StateDivergence in codes then HealthAsymmetric
    else HealthOk
  }

  lemma HealthByCodes(issues: seq<Issue>)
    ensures HealthOf(issues) == Judge(Codes(issues))
  {
    if i :| i in issues && i.Severity() == Error {
      assert i.code in Codes(issues);
    }
    if i :| i in issues && i.Severity() == Warning && i.code != NodeUnreachable {
      assert i.code in Codes(issues);
    }
    if StateDivergence in Codes(issues) {
      var i :| i in issues && i.code == StateDivergence;
      assert i.Severity() == Warning;
    }
  }

  // --- What each pass raises ------------------------------------------------------------

  ghost predicate PairBroken(n: Node, dg: string, unknown: bool) {
    FindGroup(n, dg).Some? && !RolesPaired(FindGroup(n, dg).value)
    && RolesAllUnknown(FindGroup(n, dg).value) == unknown
  }

  ghost predicate BadRef(n: Node, dg: string, conf: map<string, set<string>>) {
    n.nodeId in conf && exists tg, t :: tg in TargetGroupsOf(n, dg) && t in tg.targets && t !in conf[n.nodeId]
  }

  ghost predicate StatesDiffer(nodes: seq<Node>, dg: string, tg: string) {
    exists n, m :: n in nodes && m in nodes && FindTg(n, dg, tg).Some? && FindTg(m, dg, tg).Some?
                   && FindTg(n, dg, tg).value.state != FindTg(m, dg, tg).value.state
  }

  ghost predicate SomeStateDiffers(nodes: seq<Node>, dg: string, tgNames: seq<string>) {
    exists tg :: tg in tgNames && StatesDiffer(nodes, dg, tg)
  }

  ghost predicate SomePairBroken(nodes: seq<Node>, dg: string, unknown: bool) {
    exists n :: n in nodes && PairBroken(n, dg, unknown)
  }

  ghost predicate SomeBadRef(nodes: seq<Node>, dg: string, conf: map<string, set<string>>) {
    exists n :: n in nodes && BadRef(n, dg, conf)
  }

  ghost predicate SomeAssignmentDiffers(le: Order, ready: seq<Node>, dg: string) {
    |ready| == 2 && (AssignmentDiffers(le, ready[0], ready[1], dg) || AssignmentDiffers(le, ready[1], ready[0], dg))
  }

  ghost predicate SomeIdsNotReversed(ready: seq<Node>, dg: string) {
    |ready| == 2 && IdsNotReversed(ready[0], ready[1], dg)
  }

  predicate IsShape(c: Code) {
    c == AsymmetricTargetGroups || c == StateDivergence || c == MissingLocalRemotePair || c == ManualReview
  }

  /** `tgNames` are the names of the target groups of the device group on any node. */
  ghost predicate RaisedShape(le: Order, ready: seq<Node>, enabled: bool, dg: string, tgNames: seq<string>, c: Code) {
    match c
    case AsymmetricTargetGroups => !TgSetsMatch(le, ready, dg, tgNames)
    case StateDivergence => SomeStateDiffers(ready, dg, tgNames)
    case MissingLocalRemotePair => enabled && SomePairBroken(ready, dg, false)
    case ManualReview => enabled && SomePairBroken(ready, dg, true)
    case _ => false
  }

  ghost predicate RaisedTargets(le: Order, ready: seq<Node>, options: Options, dg: string, c: Code) {
    match c
    case GroupIdNotReversed => options.enabled && SomeIdsNotReversed(ready, dg)
    case TargetAssignmentMismatch => SomeAssignmentDiffers(le, ready, dg)
    case InvalidTargetReference => options.conf.Some? && SomeBadRef(ready, dg, options.conf.value)
    case _ => false
  }

  /** Code `c` is raised about device group `dg`. */
  ghost predicate Raised(le: Order, ready: seq<Node>, options: Options, dg: string, c: Code) {
    if IsShape(c) then RaisedShape(le, ready, options.enabled, dg, UnionTgNames(le, ready, dg), c)
    else RaisedTargets(le, ready, options, dg, c)
  }

  ghost predicate SomeEmpty(ready: seq<Node>) { exists n :: n in ready && n.deviceGroups == [] }
  ghost predicate SomeUnreachable(nodes: seq<Node>) { exists n :: n in nodes && !n.sshReady }

  /** Code `c` is raised before the fingerprints are compared. */
  ghost predicate RaisedByNodes(le: Order, nodes: seq<Node>, options: Options, c: Code) {
    var ready := Ready(nodes);
    match c
    case MissingAluaConfig => SomeEmpty(ready)
    case NodeUnreachable => SomeUnreachable(nodes)
    case AsymmetricDeviceGroups => !GroupSetsMatch(le, ready, UnionGroupNames(le, ready))
    case _ => RaisedSomewhere(le, ready, options, c)
  }

  lemma DistinctValues<T(!new)>(s: seq<T>)
    ensures |Dedup(s)| > 1 <==> exists x, y :: x in s && y in s && x != y
  {
    var d := Dedup(s);
    if |d| > 1 {
      assert d[0] in s && d[1] in s && d[0] != d[1];
    }
    if x, y :| x in s && y in s && x != y {
      assert x in d && y in d;
    }
  }

  ghost predicate HasState(n: Node, dg: string, tg: string, x: State) {
    FindTg(n, dg, tg).Some? && FindTg(n, dg, tg).value.state == x
  }

  lemma StateSeenMember(nodes: seq<Node>, dg: string, tg: string, x: State)
    ensures x in FlatMap(StateSeen(dg, tg), nodes) <==> exists n :: n in nodes && HasState(n, dg, tg, x)
  {
    FlatMapMember(StateSeen(dg, tg), nodes, x);
    assert forall n: Node :: x in StateSeen(dg, tg)(n) <==> HasState(n, dg, tg, x);
  }

  lemma StatesDifferExact(nodes: seq<Node>, dg: string, tg: string)
    ensures |StatesSeen(nodes, dg, tg)| > 1 <==> StatesDiffer(nodes, dg, tg)
  {
    var seen := FlatMap(StateSeen(dg, tg), nodes);
    DistinctValues(seen);
    if x, y :| x in seen && y in seen && x != y {
      StateSeenMember(nodes, dg, tg, x);
      StateSeenMember(nodes, dg, tg, y);
      var n :| n in nodes && HasState(n, dg, tg, x);
      var m :| m in nodes && HasState(m, dg, tg, y);
    }
    if n, m :| n in nodes && m in nodes && FindTg(n, dg, tg).Some? && FindTg(m, dg, tg).Some?
               && FindTg(n, dg, tg).value.state != FindTg(m, dg, tg).value.state {
      var x, y := FindTg(n, dg, tg).value.state, FindTg(m, dg, tg).value.state;
      assert HasState(n, dg, tg, x) && HasState(m, dg, tg, y);
      StateSeenMember(nodes, dg, tg, x);
      StateSeenMember(nodes, dg, tg, y);
    }
  }

  lemma StateCodes(nodes: seq<Node>, dg: string, tgNames: seq<string>, c: Code)
    ensures c in Codes(StatePass(nodes, dg, tgNames))
       <==> c == StateDivergence && SomeStateDiffers(nodes, dg, tgNames)
  {
    CodesFlatMap(StateOf(nodes, dg), tgNames, c);
    forall tg ensures c in Codes(StateOf(nodes, dg)(tg)) <==> c == StateDivergence && StatesDiffer(nodes, dg, tg) {
      StatesDifferExact(nodes, dg, tg);
      SingletonCodes(StateOf(nodes, dg)(tg));
    }
  }

  lemma SingletonCodes(issues: seq<Issue>)
    requires |issues| <= 1
    ensures Codes(issues) == if issues == [] then {} else {issues[0].code}
  {
  }

  lemma PairCodes(nodes: seq<Node>, dg: string, enabled: bool, c: Code)
    ensures c in Codes(PairPass(nodes, dg, enabled))
       <==> enabled && (c == ManualReview || c == MissingLocalRemotePair)
            && SomePairBroken(nodes, dg, c == ManualReview)
  {
    CodesFlatMap(PairOf(dg), nodes, c);
    forall n ensures c in Codes(PairOf(dg)(n))
                <==> (c == ManualReview || c == MissingLocalRemotePair) && PairBroken(n, dg, c == ManualReview) {
      SingletonCodes(PairOf(dg)(n));
    }
  }

  lemma NodeRefCodes(n: Node, dg: string, conf: map<string, set<string>>, c: Code)
    ensures c in Codes(RefOf(dg, conf)(n)) <==> c == InvalidTargetReference && BadRef(n, dg, conf)
  {
    if n.nodeId in conf {
      var known := conf[n.nodeId];
      CodesFlatMap(RefOfTg(n, dg, known), TargetGroupsOf(n, dg), c);
      forall tg ensures c in Codes(RefOfTg(n, dg, known)(tg))
                   <==> c == InvalidTargetReference && exists t :: t in tg.targets && t !in known {
        CodesFlatMap(RefOfTarget(n, dg, tg.name, known), tg.targets, c);
        forall t
          ensures c in Codes(RefOfTarget(n, dg, tg.name, known)(t)) <==> c == InvalidTargetReference && t !in known
        {
          SingletonCodes(RefOfTarget(n, dg, tg.name, known)(t));
        }
      }
    }
  }

  lemma RefCodes(nodes: seq<Node>, dg: string, conf: Option<map<string, set<string>>>, c: Code)
    ensures c in Codes(RefPass(nodes, dg, conf))
       <==> c == InvalidTargetReference && conf.Some? && SomeBadRef(nodes, dg, conf.value)
  {
    if conf.Some? {
      CodesFlatMap(RefOf(dg, conf.value), nodes, c);
      forall n
        ensures c in Codes(RefOf(dg, conf.value)(n)) <==> c == InvalidTargetReference && BadRef(n, dg, conf.value)
      {
        NodeRefCodes(n, dg, conf.value, c);
      }
    }
  }

  lemma CodesConcat3(a: seq<Issue>, b: seq<Issue>, c: seq<Issue>)
    ensures Codes(a + b + c) == Codes(a) + Codes(b) + Codes(c)
  {
    CodesConcat(a, b);
    CodesConcat(a + b, c);
  }

  lemma TgSetCodes(le: Order, ready: seq<Node>, dg: string, tgNames: seq<string>, c: Code)
    ensures c in Codes(TgSetPass(le, ready, dg, tgNames))
       <==> c == AsymmetricTargetGroups && !TgSetsMatch(le, ready, dg, tgNames)
  {
    SingletonCodes(TgSetPass(le, ready, dg, tgNames));
  }

  lemma ShapeParts(le: Order, ready: seq<Node>, enabled: bool, dg: string, tgNames: seq<string>, c: Code)
    ensures c in Codes(ShapePassesOver(le, ready, enabled, dg, tgNames))
       <==> c in Codes(TgSetPass(le, ready, dg, tgNames)) || c in Codes(StatePass(ready, dg, tgNames))
            || c in Codes(PairPass(ready, dg, enabled))
  {
    CodesConcat3(TgSetPass(le, ready, dg, tgNames), StatePass(ready, dg, tgNames), PairPass(ready, dg, enabled));
  }

  lemma OtherPasses(nodes: seq<Node>, dg: string, enabled: bool, tgNames: seq<string>, c: Code)
    ensures c in Codes(StatePass(nodes, dg, tgNames)) ==> c == StateDivergence
    ensures c in Codes(PairPass(nodes, dg, enabled)) ==> c == ManualReview || c == MissingLocalRemotePair
  {
    StateCodes(nodes, dg, tgNames, c);
    PairCodes(nodes, dg, enabled, c);
  }

  lemma TgSetShape(le: Order, ready: seq<Node>, enabled: bool, dg: string, tgNames: seq<string>, c: Code)
    requires c != StateDivergence && c != ManualReview && c != MissingLocalRemotePair
    ensures c in Codes(ShapePassesOver(le, ready, enabled, dg, tgNames))
       <==> c == AsymmetricTargetGroups && !TgSetsMatch(le, ready, dg, tgNames)
  {
    ShapeParts(le, ready, enabled, dg, tgNames, c);
    TgSetCodes(le, ready, dg, tgNames, c);
    OtherPasses(ready, dg, enabled, tgNames, c);
  }

  lemma StateShape(le: Order, ready: seq<Node>, enabled: bool, dg: string, tgNames: seq<string>)
    ensures StateDivergence in Codes(ShapePassesOver(le, ready, enabled, dg, tgNames))
       <==> SomeStateDiffers(ready, dg, tgNames)
  {
    var c := StateDivergence;
    ShapeParts(le, ready, enabled, dg, tgNames, c);
    SingletonCodes(TgSetPass(le, ready, dg, tgNames));
    StateCodes(ready, dg, tgNames, c);
    OtherPasses(ready, dg, enabled, tgNames, c);
  }

  lemma PairShape(le: Order, ready: seq<Node>, enabled: bool, dg: string, tgNames: seq<string>, c: Code)
    requires c == MissingLocalRemotePair || c == ManualReview
    ensures c in Codes(ShapePassesOver(le, ready, enabled, dg, tgNames))
       <==> enabled && SomePairBroken(ready, dg, c == ManualReview)
  {
    ShapeParts(le, ready, enabled, dg, tgNames, c);
    SingletonCodes(TgSetPass(le, ready, dg, tgNames));
    PairCodes(ready, dg, enabled, c);
    OtherPasses(ready, dg, enabled, tgNames, c);
  }

  /** A set of codes is the raised ones if it is so for each kind of code. */
  lemma RaisedTable(le: Order, ready: seq<Node>, enabled: bool, dg: string, tgNames: seq<string>,
                    codes: set<Code>, c: Code)
    requires c == StateDivergence ==> (c in codes <==> SomeStateDiffers(ready, dg, tgNames))
    requires c == MissingLocalRemotePair ==> (c in codes <==> enabled && SomePairBroken(ready, dg, false))
    requires c == ManualReview ==> (c in codes <==> enabled && SomePairBroken(ready, dg, true))
    requires c != StateDivergence && c != ManualReview && c != MissingLocalRemotePair ==>
               (c in codes <==> c == AsymmetricTargetGroups && !TgSetsMatch(le, ready, dg, tgNames))
    ensures c in codes <==> RaisedShape(le, ready, enabled, dg, tgNames, c)
  {
  }

  lemma ShapeCodesOver(le: Order, ready: seq<Node>, enabled: bool, dg: string, tgNames: seq<string>, c: Code)
    ensures c in Codes(ShapePassesOver(le, ready, enabled, dg, tgNames))
       <==> RaisedShape(le, ready, enabled, dg, tgNames, c)
  {
    var codes := Codes(ShapePassesOver(le, ready, enabled, dg, tgNames));
    if c == StateDivergence {
      StateShape(le, ready, enabled, dg, tgNames);
    } else if c == MissingLocalRemotePair || c == ManualReview {
      PairShape(le, ready, enabled, dg, tgNames, c);
    } else {
      TgSetShape(le, ready, enabled, dg, tgNames, c);
    }
    RaisedTable(le, ready, enabled, dg, tgNames, codes, c);
  }

  lemma ShapeCodes(le: Order, ready: seq<Node>, options: Options, dg: string, c: Code)
    ensures c in Codes(ShapePasses(le, ready, options.enabled, dg))
       <==> RaisedShape(le, ready, options.enabled, dg, UnionTgNames(le, ready, dg), c)
  {
    ShapeCodesOver(le, ready, options.enabled, dg, UnionTgNames(le, ready, dg), c);
  }

  lemma TargetParts(le: Order, ready: seq<Node>, options: Options, dg: string, c: Code)
    ensures c in Codes(TargetPasses(le, ready, options, dg))
       <==> c in Codes(IdPass(ready, dg, options.enabled)) || c in Codes(AssignPass(le, ready, dg))
            || c in Codes(RefPass(ready, dg, options.conf))
  {
    CodesConcat3(IdPass(ready, dg, options.enabled), AssignPass(le, ready, dg), RefPass(ready, dg, options.conf));
  }

  lemma AssignCodes(le: Order, ready: seq<Node>, dg: string, c: Code)
    ensures c in Codes(AssignPass(le, ready, dg))
       <==> c == TargetAssignmentMismatch && SomeAssignmentDiffers(le, ready, dg)
  {
    SingletonCodes(AssignPass(le, ready, dg));
  }

  lemma IdCodes(ready: seq<Node>, dg: string, enabled: bool, c: Code)
    ensures c in Codes(IdPass(ready, dg, enabled))
       <==> c == GroupIdNotReversed && enabled && SomeIdsNotReversed(ready, dg)
  {
    SingletonCodes(IdPass(ready, dg, enabled));
  }

  lemma TargetCodes(le: Order, ready: seq<Node>, options: Options, dg: string, c: Code)
    ensures c in Codes(TargetPasses(le, ready, options, dg)) <==> RaisedTargets(le, ready, options, dg, c)
  {
    TargetParts(le, ready, options, dg, c);
    IdCodes(ready, dg, options.enabled, c);
    AssignCodes(le, ready, dg, c);
    RefCodes(ready, dg, options.conf, c);
  }

  lemma GroupParts(le: Order, ready: seq<Node>, options: Options, dg: string, c: Code)
    ensures c in Codes(GroupPasses(le, ready, options)(dg))
       <==> c in Codes(ShapePasses(le, ready, options.enabled, dg)) || c in Codes(TargetPasses(le, ready, options, dg))
  {
    CodesConcat(ShapePasses(le, ready, options.enabled, dg), TargetPasses(le, ready, options, dg));
  }

  lemma GroupCodes(le: Order, ready: seq<Node>, options: Options, dg: string, c: Code)
    ensures c in Codes(GroupPasses(le, ready, options)(dg)) <==> Raised(le, ready, options, dg, c)
  {
    GroupParts(le, ready, options, dg, c);
    ShapeCodes(le, ready, options, dg, c);
    TargetCodes(le, ready, options, dg, c);
  }

  /** Code `c` is raised about some device group. */
  ghost predicate RaisedSomewhere(le: Order, ready: seq<Node>, options: Options, c: Code) {
    exists dg :: dg in UnionGroupNames(le, ready) && Raised(le, ready, options, dg, c)
  }

  lemma AnyGroupCodes(le: Order, ready: seq<Node>, options: Options, c: Code)
    ensures c in Codes(FlatMap(GroupPasses(le, ready, options), UnionGroupNames(le, ready)))
       <==> RaisedSomewhere(le, ready, options, c)
  {
    var f, dgNames := GroupPasses(le, ready, options), UnionGroupNames(le, ready);
    CodesFlatMap(f, dgNames, c);
    forall dg ensures c in Codes(f(dg)) <==> Raised(le, ready, options, dg, c) {
      GroupCodes(le, ready, options, dg, c);
    }
  }

  lemma GroupsCodes(le: Order, ready: seq<Node>, options: Options, c: Code)
    ensures c in Codes(GroupsPass(le, ready, options))
       <==> (c == AsymmetricDeviceGroups && !GroupSetsMatch(le, ready, UnionGroupNames(le, ready)))
            || RaisedSomewhere(le, ready, options, c)
  {
    var pass := FlatMap(GroupPasses(le, ready, options), UnionGroupNames(le, ready));
    CodesConcat(GroupSetPass(le, ready), pass);
    SingletonCodes(GroupSetPass(le, ready));
    AnyGroupCodes(le, ready, options, c);
  }

  lemma PresenceCodes(nodes: seq<Node>, c: Code)
    ensures c in Codes(PresencePass(nodes))
       <==> (c == MissingAluaConfig && SomeEmpty(Ready(nodes))) || (c == NodeUnreachable && SomeUnreachable(nodes))
  {
    var ready, unready := Ready(nodes), Filter(UnreadyNode(), nodes);
    CodesConcat(FlatMap(MissingOf(), ready), FlatMap(UnreachableOf(), unready));
    CodesFlatMap(MissingOf(), ready, c);
    CodesFlatMap(UnreachableOf(), unready, c);
    forall n ensures c in Codes(MissingOf()(n)) <==> c == MissingAluaConfig && n.deviceGroups == [] {
      SingletonCodes(MissingOf()(n));
    }
    forall n ensures c in Codes(UnreachableOf()(n)) <==> c == NodeUnreachable {
      SingletonCodes(UnreachableOf()(n));
    }
    forall n ensures n in unready <==> n in nodes && !n.sshReady {
      assert UnreadyNode()(n) == !n.sshReady;
    }
  }

  /** The device groups raise no code that the presence of nodes and groups raises. */
  lemma PresenceOnly(le: Order, ready: seq<Node>, options: Options, c: Code)
    requires c == MissingAluaConfig || c == NodeUnreachable || c == AsymmetricDeviceGroups
    ensures !RaisedSomewhere(le, ready, options, c)
  {
    forall dg ensures !Raised(le, ready, options, dg, c) {
    }
  }

  lemma NodeParts(le: Order, nodes: seq<Node>, options: Options, c: Code)
    requires |Ready(nodes)| >= 2
    ensures c in Codes(NodeIssues(le, nodes, options))
       <==> c in Codes(PresencePass(nodes)) || c in Codes(GroupsPass(le, Ready(nodes), options))
  {
    CodesConcat(PresencePass(nodes), GroupsPass(le, Ready(nodes), options));
  }

  lemma PresenceGroupsCodes(le: Order, ready: seq<Node>, options: Options, c: Code)
    requires c == MissingAluaConfig || c == NodeUnreachable || c == AsymmetricDeviceGroups
    ensures c in Codes(GroupsPass(le, ready, options))
       <==> c == AsymmetricDeviceGroups && !GroupSetsMatch(le, ready, UnionGroupNames(le, ready))
  {
    GroupsCodes(le, ready, options, c);
    PresenceOnly(le, ready, options, c);
  }

  lemma PresenceParts(le: Order, nodes: seq<Node>, options: Options, c: Code)
    requires |Ready(nodes)| >= 2 && (c == MissingAluaConfig || c == NodeUnreachable || c == AsymmetricDeviceGroups)
    ensures c in Codes(NodeIssues(le, nodes, options))
       <==> c in Codes(PresencePass(nodes))
            || (c == AsymmetricDeviceGroups && !GroupSetsMatch(le, Ready(nodes), UnionGroupNames(le, Ready(nodes))))
  {
    NodeParts(le, nodes, options, c);
    PresenceGroupsCodes(le, Ready(nodes), options, c);
  }

  lemma RaisedByPresence(le: Order, nodes: seq<Node>, options: Options, c: Code)
    requires c == MissingAluaConfig || c == NodeUnreachable || c == AsymmetricDeviceGroups
    ensures RaisedByNodes(le, nodes, options, c)
       <==> (c == MissingAluaConfig && SomeEmpty(Ready(nodes))) || (c == NodeUnreachable && SomeUnreachable(nodes))
            || (c == AsymmetricDeviceGroups && !GroupSetsMatch(le, Ready(nodes), UnionGroupNames(le, Ready(nodes))))
  {
  }

  lemma PresenceNodeCodes(le: Order, nodes: seq<Node>, options: Options, c: Code)
    requires |Ready(nodes)| >= 2 && (c == MissingAluaConfig || c == NodeUnreachable || c == AsymmetricDeviceGroups)
    ensures c in Codes(NodeIssues(le, nodes, options)) <==> RaisedByNodes(le, nodes, options, c)
  {
    PresenceParts(le, nodes, options, c);
    PresenceCodes(nodes, c);
    RaisedByPresence(le, nodes, options, c);
  }

  lemma GroupNodeCodes(le: Order, nodes: seq<Node>, options: Options, c: Code)
    requires |Ready(nodes)| >= 2 && c != MissingAluaConfig && c != NodeUnreachable && c != AsymmetricDeviceGroups
    ensures c in Codes(NodeIssues(le, nodes, options)) <==> RaisedSomewhere(le, Ready(nodes), options, c)
  {
    NodeParts(le, nodes, options, c);
    PresenceCodes(nodes, c);
    GroupsCodes(le, Ready(nodes), options, c);
  }

  lemma NodeCodes(le: Order, nodes: seq<Node>, options: Options, c: Code)
    requires |Ready(nodes)| >= 2
    ensures c in Codes(NodeIssues(le, nodes, options)) <==> RaisedByNodes(le, nodes, options, c)
  {
    if c == MissingAluaConfig || c == NodeUnreachable || c == AsymmetricDeviceGroups {
      PresenceNodeCodes(le, nodes, options, c);
    } else {
      GroupNodeCodes(le, nodes, options, c);
    }
  }

  /** Two nodes have different fingerprints and neither is empty. */
  ghost predicate FingerprintsDiffer(le: Order, ready: seq<Node>) {
    exists n, m :: n in ready && m in ready
                   && Fingerprint(le, n.deviceGroups) != "" && Fingerprint(le, m.deviceGroups) != ""
                   && Fingerprint(le, n.deviceGroups) != Fingerprint(le, m.deviceGroups)
  }

  lemma FingerprintsMember(le: Order, ready: seq<Node>, x: string)
    ensures x in Fingerprints(le, ready) <==> x != "" && exists n :: n in ready && Fingerprint(le, n.deviceGroups) == x
  {
    var all := Map(NodeFingerprint(le), ready);
    if x in all {
      var i :| 0 <= i < |all| && all[i] == x;
      assert ready[i] in ready;
    }
    if n :| n in ready && Fingerprint(le, n.deviceGroups) == x {
      var i :| 0 <= i < |ready| && ready[i] == n;
      assert all[i] == x;
    }
  }

  lemma ManyFingerprints(le: Order, ready: seq<Node>)
    ensures (exists x, y :: x in Fingerprints(le, ready) && y in Fingerprints(le, ready) && x != y)
       <==> FingerprintsDiffer(le, ready)
  {
    var fps := Fingerprints(le, ready);
    if x, y :| x in fps && y in fps && x != y {
      FingerprintsMember(le, ready, x);
      FingerprintsMember(le, ready, y);
    }
    if FingerprintsDiffer(le, ready) {
      var n, m :| n in ready && m in ready
                  && Fingerprint(le, n.deviceGroups) != "" && Fingerprint(le, m.deviceGroups) != ""
                  && Fingerprint(le, n.deviceGroups) != Fingerprint(le, m.deviceGroups);
      FingerprintsMember(le, ready, Fingerprint(le, n.deviceGroups));
      FingerprintsMember(le, ready, Fingerprint(le, m.deviceGroups));
    }
  }

  lemma FingerprintCodes(le: Order, ready: seq<Node>, issues: seq<Issue>)
    ensures Codes(FingerprintPass(le, ready, issues))
         == if FingerprintsDiffer(le, ready) && Codes(issues) !! STRUCTURAL then {StateDivergence} else {}
  {
    var fps := Fingerprints(le, ready);
    ManyFingerprints(le, ready);
    DistinctValues(fps);
    SingletonCodes(FingerprintPass(le, ready, issues));
    assert (exists x, y :: x in fps && y in fps && x != y) ==> |fps| >= 2;
  }

  // --- The order of the nodes does not matter -------------------------------------------

  lemma UnionGroupNamesMember(le: Order, nodes: seq<Node>, name: string)
    ensures name in UnionGroupNames(le, nodes) <==> exists n :: n in nodes && name in GroupNames(n)
  {
    var all := FlatMap(NodeGroupNames(), nodes);
    SortElements(le, Dedup(all));
    FlatMapMember(NodeGroupNames(), nodes, name);
    assert forall n: Node :: NodeGroupNames()(n) == GroupNames(n);
  }

  lemma UnionTgNamesMember(le: Order, nodes: seq<Node>, dg: string, name: string)
    ensures name in UnionTgNames(le, nodes, dg) <==> exists n :: n in nodes && name in TgNames(n, dg)
  {
    var all := FlatMap(NodeTgNames(dg), nodes);
    SortElements(le, Dedup(all));
    FlatMapMember(NodeTgNames(dg), nodes, name);
    assert forall n: Node :: NodeTgNames(dg)(n) == TgNames(n, dg);
  }

  lemma UnionGroupNamesOrderFree(le: Order, a: seq<Node>, b: seq<Node>)
    requires TotalOrder(le) && forall n :: n in a <==> n in b
    ensures UnionGroupNames(le, a) == UnionGroupNames(le, b)
  {
    var da, db := Dedup(FlatMap(NodeGroupNames(), a)), Dedup(FlatMap(NodeGroupNames(), b));
    forall x ensures x in da <==> x in db {
      FlatMapMember(NodeGroupNames(), a, x);
      FlatMapMember(NodeGroupNames(), b, x);
    }
    SortedSetCanonical(le, da, db);
  }

  lemma UnionTgNamesOrderFree(le: Order, a: seq<Node>, b: seq<Node>, dg: string)
    requires TotalOrder(le) && forall n :: n in a <==> n in b
    ensures UnionTgNames(le, a, dg) == UnionTgNames(le, b, dg)
  {
    var da, db := Dedup(FlatMap(NodeTgNames(dg), a)), Dedup(FlatMap(NodeTgNames(dg), b));
    forall x ensures x in da <==> x in db {
      FlatMapMember(NodeTgNames(dg), a, x);
      FlatMapMember(NodeTgNames(dg), b, x);
    }
    SortedSetCanonical(le, da, db);
  }

  lemma PairOrderFree(a: seq<Node>, b: seq<Node>)
    requires multiset(a) == multiset(b) && |a| == 2
    ensures |b| == 2 && ((b[0] == a[0] && b[1] == a[1]) || (b[0] == a[1] && b[1] == a[0]))
  {
    SameMultisetSameElements(a, b);
    assert a == [a[0], a[1]] && b == [b[0], b[1]];
    assert multiset(a) == multiset{a[0], a[1]} && multiset(b) == multiset{b[0], b[1]};
    assert a[0] in b && a[1] in b && b[0] in a && b[1] in a;
    if a[0] != a[1] {
      assert multiset(a)[a[0]] == 1;
    }
  }

  lemma PairwiseOrderFree(le: Order, a: seq<Node>, b: seq<Node>, options: Options, dg: string, c: Code)
    requires multiset(a) == multiset(b) && (c == GroupIdNotReversed || c == TargetAssignmentMismatch)
    ensures Raised(le, a, options, dg, c) <==> Raised(le, b, options, dg, c)
  {
    SameMultisetSameElements(a, b);
    if |a| == 2 {
      PairOrderFree(a, b);
    }
  }

  lemma StatesOrderFree(a: seq<Node>, b: seq<Node>, dg: string, tgNames: seq<string>)
    requires forall n :: n in a <==> n in b
    ensures SomeStateDiffers(a, dg, tgNames) <==> SomeStateDiffers(b, dg, tgNames)
  {
    forall tg ensures StatesDiffer(a, dg, tg) <==> StatesDiffer(b, dg, tg) {
    }
  }

  lemma RaisedOrderFree(le: Order, a: seq<Node>, b: seq<Node>, options: Options, dg: string, c: Code)
    requires TotalOrder(le) && multiset(a) == multiset(b)
    ensures Raised(le, a, options, dg, c) <==> Raised(le, b, options, dg, c)
  {
    SameMultisetSameElements(a, b);
    match c
    case AsymmetricTargetGroups => UnionTgNamesOrderFree(le, a, b, dg);
    case StateDivergence =>
      UnionTgNamesOrderFree(le, a, b, dg);
      StatesOrderFree(a, b, dg, UnionTgNames(le, a, dg));
    case GroupIdNotReversed => PairwiseOrderFree(le, a, b, options, dg, c);
    case TargetAssignmentMismatch => PairwiseOrderFree(le, a, b, options, dg, c);
    case _ =>
  }

  lemma SomewhereOrderFree(le: Order, a: seq<Node>, b: seq<Node>, options: Options, c: Code)
    requires TotalOrder(le) && multiset(a) == multiset(b)
    ensures RaisedSomewhere(le, a, options, c) ==> RaisedSomewhere(le, b, options, c)
  {
    SameMultisetSameElements(a, b);
    UnionGroupNamesOrderFree(le, a, b);
    if RaisedSomewhere(le, a, options, c) {
      var dg :| dg in UnionGroupNames(le, a) && Raised(le, a, options, dg, c);
      RaisedOrderFree(le, a, b, options, dg, c);
    }
  }

  lemma GroupSetsOrderFree(le: Order, a: seq<Node>, b: seq<Node>)
    requires TotalOrder(le) && multiset(a) == multiset(b)
    ensures GroupSetsMatch(le, a, UnionGroupNames(le, a)) <==> GroupSetsMatch(le, b, UnionGroupNames(le, b))
  {
    SameMultisetSameElements(a, b);
    UnionGroupNamesOrderFree(le, a, b);
  }

  lemma RaisedByNodesOrderFree(le: Order, a: seq<Node>, b: seq<Node>, options: Options, c: Code)
    requires TotalOrder(le) && multiset(a) == multiset(b)
    ensures RaisedByNodes(le, a, options, c) <==> RaisedByNodes(le, b, options, c)
  {
    var ra, rb := Ready(a), Ready(b);
    SameMultisetSameElements(a, b);
    FilterPermutation(ReadyNode(), a, b);
    SameMultisetSameElements(ra, rb);
    if c == AsymmetricDeviceGroups {
      GroupSetsOrderFree(le, ra, rb);
    } else if c != MissingAluaConfig && c != NodeUnreachable {
      SomewhereOrderFree(le, ra, rb, options, c);
      SomewhereOrderFree(le, rb, ra, options, c);
    }
  }

  /** The codes of the whole report. */
  lemma ReportCodes(le: Order, nodes: seq<Node>, options: Options)
    requires |Ready(nodes)| >= 2
    ensures var codes := Codes(NodeIssues(le, nodes, options));
            Codes(Compare(le, nodes, options).issues)
              == codes + if FingerprintsDiffer(le, Ready(nodes)) && codes !! STRUCTURAL then {StateDivergence} else {}
    ensures Compare(le, nodes, options).health == Judge(Codes(Compare(le, nodes, options).issues))
  {
    var issues := NodeIssues(le, nodes, options);
    var pass := FingerprintPass(le, Ready(nodes), issues);
    FingerprintCodes(le, Ready(nodes), issues);
    CodesConcat(issues, pass);
    HealthByCodes(issues + pass);
  }

  /** Listing the nodes in another order changes neither the verdict nor the codes reported. */
  lemma VerdictOrderFree(le: Order, a: seq<Node>, b: seq<Node>, options: Options)
    requires TotalOrder(le) && multiset(a) == multiset(b)
    ensures Compare(le, a, options).health == Compare(le, b, options).health
    ensures Codes(Compare(le, a, options).issues) == Codes(Compare(le, b, options).issues)
  {
    var ra, rb := Ready(a), Ready(b);
    FilterPermutation(ReadyNode(), a, b);
    SameMultisetSameElements(ra, rb);
    NodeCodesOrderFree(le, a, b, options);
    if |ra| >= 2 {
      ReportCodes(le, a, options);
      ReportCodes(le, b, options);
      assert FingerprintsDiffer(le, ra) <==> FingerprintsDiffer(le, rb);
    }
  }

  lemma FewNodesOrderFree(le: Order, a: seq<Node>, b: seq<Node>, options: Options, c: Code)
    requires multiset(a) == multiset(b) && |Ready(a)| < 2 && |Ready(b)| < 2
    requires forall n :: n in Ready(a) <==> n in Ready(b)
    ensures c in Codes(NodeIssues(le, a, options)) <==> c in Codes(NodeIssues(le, b, options))
  {
    SameMultisetSameElements(a, b);
    PresenceCodes(a, c);
    PresenceCodes(b, c);
    assert NodeIssues(le, a, options) == PresencePass(a) && NodeIssues(le, b, options) == PresencePass(b);
  }

  lemma NodeCodeOrderFree(le: Order, a: seq<Node>, b: seq<Node>, options: Options, c: Code)
    requires TotalOrder(le) && multiset(a) == multiset(b)
    ensures c in Codes(NodeIssues(le, a, options)) <==> c in Codes(NodeIssues(le, b, options))
  {
    FilterPermutation(ReadyNode(), a, b);
    SameMultisetSameElements(Ready(a), Ready(b));
    if |Ready(a)| < 2 {
      FewNodesOrderFree(le, a, b, options, c);
    } else {
      NodeCodes(le, a, options, c);
      NodeCodes(le, b, options, c);
      RaisedByNodesOrderFree(le, a, b, options, c);
    }
  }

  lemma NodeCodesOrderFree(le: Order, a: seq<Node>, b: seq<Node>, options: Options)
    requires TotalOrder(le) && multiset(a) == multiset(b)
    ensures Codes(NodeIssues(le, a, options)) == Codes(NodeIssues(le, b, options))
  {
    forall c ensures c in Codes(NodeIssues(le, a, options)) <==> c in Codes(NodeIssues(le, b, options)) {
      NodeCodeOrderFree(le, a, b, options, c);
    }
  }
}
