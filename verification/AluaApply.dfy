/** The ordered two-node apply, `server/utils/alua-cluster-apply.ts`. */
module AluaApply {
  import opened Sequences
  import opened Text
  import opened AluaPlan

  const CONFIRMATION_PHRASE := "CONFIGURE ALUA"

  datatype Member = Member(id: string, name: string)

  /** What the outside world does when the node is reached at this point of the run. */
  datatype Outcome = NotConnected | WriteFails | WriteOk

  datatype NodeResult = NodeResult(nodeId: string, hostname: string, outcome: Outcome) {
    predicate Ok() { outcome == WriteOk }
  }

  datatype ApplyError = WrongConfirmation | NotTwoNodes | ReadOnlyNode

  /** `errors` are the names of the members that failed. */
  datatype ApplyResult = ApplyResult(ok: bool, nodeResults: seq<NodeResult>, errors: seq<string>)

  function PlanFor(id: string): NodePlan -> bool { (p: NodePlan) => p.nodeId == id }
  function MemberFor(id: string): Member -> bool { (m: Member) => m.id == id }

  /** The node has a plan and is still a member of the cluster. */
  predicate Covered(plan: Plan, members: seq<Member>, id: string) {
    Find(PlanFor(id), plan.nodes).Some? && Find(MemberFor(id), members).Some?
  }

  function Order(plan: Plan): seq<string> { [plan.peerNodeId, plan.primaryNodeId] }

  /** The results of the nodes from position `k` of the order on: nodes that are not covered are
      skipped, the first failure ends the run. */
  function ResultsFrom(plan: Plan, members: seq<Member>, world: seq<Outcome>, k: nat): seq<NodeResult>
    requires k <= 2 == |world|
    decreases 2 - k
  {
    if k == 2 then []
    else
      var id := Order(plan)[k];
      if !Covered(plan, members, id) then ResultsFrom(plan, members, world, k + 1)
      else
        var result := NodeResult(id, Find(PlanFor(id), plan.nodes).value.hostname, world[k]);
        if result.Ok() then [result] + ResultsFrom(plan, members, world, k + 1) else [result]
  }

  function Failed(members: seq<Member>): NodeResult -> seq<string> {
    (r: NodeResult) =>
      var m := Find(MemberFor(r.nodeId), members);
      if r.Ok() || m.None? then [] else [m.value.name]
  }

  function Applied(plan: Plan, members: seq<Member>, world: seq<Outcome>): ApplyResult
    requires |world| == 2
  {
    var results := ResultsFrom(plan, members, world, 0);
    var errors := FlatMap(Failed(members), results);
    ApplyResult(errors == [] && forall r :: r in results ==> r.Ok(), results, errors)
  }

  function Apply(plan: Plan, confirmation: string, members: seq<Member>, writable: bool, world: seq<Outcome>)
    : Result<ApplyResult, ApplyError>
    requires |world| == 2
  {
    if Trim(confirmation) != CONFIRMATION_PHRASE then Err(WrongConfirmation)
    else if |members| != 2 then Err(NotTwoNodes)
    else if !writable then Err(ReadOnlyNode)
    else Ok(Applied(plan, members, world))
  }

  method ApplyAluaClusterPlan(plan: Plan, confirmation: string, members: seq<Member>, writable: bool,
                              world: seq<Outcome>)
    returns (r: Result<ApplyResult, ApplyError>)
    requires |world| == 2
    ensures r == Apply(plan, confirmation, members, writable, world)
  {
    if Trim(confirmation) != CONFIRMATION_PHRASE {
      return Err(WrongConfirmation);
    }
    if |members| != 2 {
      return Err(NotTwoNodes);
    }
    if !writable {
      return Err(ReadOnlyNode);
    }
    var results, errors := RunOrder(plan, members, world);
    r := Ok(ApplyResult(errors == [] && forall x :: x in results ==> x.Ok(), results, errors));
  }

  /** The loop over the order, with its `continue` and `break`. */
  method RunOrder(plan: Plan, members: seq<Member>, world: seq<Outcome>)
    returns (results: seq<NodeResult>, errors: seq<string>)
    requires |world| == 2
    ensures results == ResultsFrom(plan, members, world, 0)
    ensures errors == FlatMap(Failed(members), results)
  {
    results, errors := [], [];
    for k := 0 to 2
      invariant ResultsFrom(plan, members, world, 0) == results + ResultsFrom(plan, members, world, k)
      invariant errors == FlatMap(Failed(members), results)
    {
      var id := Order(plan)[k];
      if !Covered(plan, members, id) {
        continue;
      }
      var member := Find(MemberFor(id), members).value;
      var result := NodeResult(id, Find(PlanFor(id), plan.nodes).value.hostname, world[k]);
      assert (results + [result])[..|results|] == results;
      if !result.Ok() {
        errors := errors + [member.name];
        results := results + [result];
        return;
      }
      AppendAssociative(results, [result], ResultsFrom(plan, members, world, k + 1));
      results := results + [result];
    }
  }

  // --- Safety ---------------------------------------------------------------------------

  /** Every result but the last is a success. */
  ghost predicate FailStop(results: seq<NodeResult>) {
    forall i :: 0 <= i < |results| - 1 ==> results[i].Ok()
  }

  /** The primary is reached only after the peer was written. */
  ghost predicate PeerFirst(plan: Plan, results: seq<NodeResult>) {
    forall i :: 0 <= i < |results| && results[i].nodeId == plan.primaryNodeId ==>
      exists j :: 0 <= j < i && results[j].nodeId == plan.peerNodeId && results[j].Ok()
  }

  /** In every run nothing is attempted after a failure. */
  lemma NothingAfterFailure(plan: Plan, members: seq<Member>, world: seq<Outcome>)
    requires |world| == 2
    ensures FailStop(Applied(plan, members, world).nodeResults)
  {
    assert ResultsFrom(plan, members, world, 2) == [];
    assert |ResultsFrom(plan, members, world, 1)| <= 1;
  }

  /** The primary is never reached before a successful peer write, whatever the world does,
      exactly when the peer is covered or the primary is not. Membership is read again at this
      point, so a peer that left the cluster since planning is skipped silently. */
  lemma PeerFirstExact(plan: Plan, members: seq<Member>)
    requires plan.peerNodeId != plan.primaryNodeId
    ensures (forall world: seq<Outcome> :: |world| == 2 ==> PeerFirst(plan, Applied(plan, members, world).nodeResults))
       <==> Covered(plan, members, plan.peerNodeId) || !Covered(plan, members, plan.primaryNodeId)
  {
    forall world: seq<Outcome> | |world| == 2
      ensures PeerFirst(plan, Applied(plan, members, world).nodeResults)
         <==> Covered(plan, members, plan.peerNodeId) || !Covered(plan, members, plan.primaryNodeId)
    {
      PeerFirstRun(plan, members, world);
    }
    assert |[WriteOk, WriteOk]| == 2;
  }

  lemma PeerFirstRun(plan: Plan, members: seq<Member>, world: seq<Outcome>)
    requires plan.peerNodeId != plan.primaryNodeId && |world| == 2
    ensures PeerFirst(plan, Applied(plan, members, world).nodeResults)
       <==> Covered(plan, members, plan.peerNodeId) || !Covered(plan, members, plan.primaryNodeId)
  {
    var results := ResultsFrom(plan, members, world, 0);
    var rest := ResultsFrom(plan, members, world, 1);
    assert ResultsFrom(plan, members, world, 2) == [];
    if Covered(plan, members, plan.primaryNodeId) {
      assert |rest| == 1 && rest[0].nodeId == plan.primaryNodeId;
    }
    if Covered(plan, members, plan.peerNodeId) {
      assert results[0].nodeId == plan.peerNodeId;
    } else {
      assert results == rest;
    }
  }

  /** `ok` exactly when every covered node of the order was written. */
  lemma OkExact(plan: Plan, members: seq<Member>, world: seq<Outcome>)
    requires |world| == 2
    ensures Applied(plan, members, world).ok
       <==> forall k :: 0 <= k < 2 && Covered(plan, members, Order(plan)[k]) ==> world[k] == WriteOk
  {
    var results, rest := ResultsFrom(plan, members, world, 0), ResultsFrom(plan, members, world, 1);
    assert ResultsFrom(plan, members, world, 2) == [];
    OkByResults(members, results);
    AllOkFrom(plan, members, world, 1);
    AllOkFrom(plan, members, world, 0);
    assert (forall k :: 0 <= k < 2 && Covered(plan, members, Order(plan)[k]) ==> world[k] == WriteOk)
      <==> (Covered(plan, members, Order(plan)[0]) ==> world[0] == WriteOk)
           && (Covered(plan, members, Order(plan)[1]) ==> world[1] == WriteOk);
  }

  lemma AllOkFrom(plan: Plan, members: seq<Member>, world: seq<Outcome>, k: nat)
    requires k < 2 == |world|
    ensures (forall r :: r in ResultsFrom(plan, members, world, k) ==> r.Ok())
       <==> (Covered(plan, members, Order(plan)[k]) ==> world[k] == WriteOk)
            && forall r :: r in ResultsFrom(plan, members, world, k + 1) ==> r.Ok()
  {
    var id := Order(plan)[k];
    if Covered(plan, members, id) {
      var results := ResultsFrom(plan, members, world, k);
      assert results[0] in results && results[0].outcome == world[k];
    }
  }

  lemma OkByResults(members: seq<Member>, results: seq<NodeResult>)
    ensures (forall r :: r in results ==> r.Ok()) ==> FlatMap(Failed(members), results) == []
  {
    if (forall r :: r in results ==> r.Ok()) && FlatMap(Failed(members), results) != [] {
      var e := FlatMap(Failed(members), results)[0];
      FlatMapMember(Failed(members), results, e);
    }
  }

  /** When the members are exactly the two planned nodes, `ok` means that both were written. */
  lemma OkMeansBothWritten(plan: Plan, members: seq<Member>, world: seq<Outcome>)
    requires |world| == 2
    requires Covered(plan, members, plan.peerNodeId) && Covered(plan, members, plan.primaryNodeId)
    ensures Applied(plan, members, world).ok <==> world[0] == WriteOk && world[1] == WriteOk
  {
    OkExact(plan, members, world);
    assert Order(plan)[0] == plan.peerNodeId && Order(plan)[1] == plan.primaryNodeId;
  }

  /** The peer has been removed from the cluster and another node added: the primary is written at once. */
  lemma PeerSkippedExample(plan: Plan, members: seq<Member>, other: string)
    requires plan.peerNodeId != plan.primaryNodeId && other != plan.peerNodeId
    requires |plan.nodes| > 0 && plan.nodes[0].nodeId == plan.primaryNodeId
    requires members == [Member(plan.primaryNodeId, "a"), Member(other, "b")]
    ensures !PeerFirst(plan, Applied(plan, members, [WriteOk, WriteOk]).nodeResults)
    ensures Applied(plan, members, [WriteOk, WriteOk]).ok
  {
    FindFirst(PlanFor(plan.primaryNodeId), plan.nodes, 0);
    FindFirst(MemberFor(plan.primaryNodeId), members, 0);
    assert Find(MemberFor(plan.peerNodeId), members).None?;
    PeerFirstRun(plan, members, [WriteOk, WriteOk]);
    OkExact(plan, members, [WriteOk, WriteOk]);
  }
}
