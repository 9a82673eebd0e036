/** One-time plan tokens, `server/utils/alua-plan-token.ts`. Times are in milliseconds. */
module PlanToken {
  import opened Sequences
  import opened AluaPlan

  const TTL_MS: int := 15 * 60 * 1000

  datatype Entry = Entry(plan: Plan, expiresAt: int)

  type Store = map<string, Entry>

  datatype Event =
    | Issue(token: string, plan: Plan, now: int) | Consume(token: string, now: int) | Peek(token: string, now: int)

  function Answer(store: Store, token: string, now: int): Option<Plan> {
    if token in store && now <= store[token].expiresAt then Some(store[token].plan) else None
  }

  /** The store after one event. */
  function Next(store: Store, e: Event): Store {
    match e
    case Issue(token, plan, now) => store[token := Entry(plan, now + TTL_MS)]
    case Consume(token, _) => store - {token}
    case Peek(_, _) => store
  }

  class TokenStore {
    var store: Store

    constructor ()
      ensures store == map[]
    {
      store := map[];
    }

    /** `issuePlanToken`, given the token that was drawn. */
    method IssuePlanToken(token: string, plan: Plan, now: int)
      modifies this
      ensures store == Next(old(store), Issue(token, plan, now))
    {
      store := store[token := Entry(plan, now + TTL_MS)];
    }

    /** `consumePlanToken`: the entry goes even when it has expired. */
    method ConsumePlanToken(token: string, now: int) returns (r: Option<Plan>)
      modifies this
      ensures r == Answer(old(store), token, now)
      ensures store == Next(old(store), Consume(token, now))
    {
      if token !in store {
        assert store - {token} == store;
        return None;
      }
      var entry := store[token];
      store := store - {token};
      if now > entry.expiresAt {
        return None;
      }
      r := Some(entry.plan);
    }

    method PeekPlanToken(token: string, now: int) returns (r: Option<Plan>)
      ensures r == Answer(store, token, now)
    {
      if token !in store || now > store[token].expiresAt {
        return None;
      }
      r := Some(store[token].plan);
    }
  }

  // --- Runs -----------------------------------------------------------------------------

  /** The store after the first `k` events, from the empty store. */
  function After(events: seq<Event>, k: nat): Store
    requires k <= |events|
  {
    if k == 0 then map[] else Next(After(events, k - 1), events[k - 1])
  }

  /** The event reads or writes the entry of the token for good. */
  predicate Touches(e: Event, token: string) {
    !e.Peek? && e.token == token
  }

  /** Event `j` issued the token for this plan, and it is still the latest word on the token
      before event `k`. */
  ghost predicate LiveIssue(events: seq<Event>, j: nat, k: nat, token: string, entry: Entry)
    requires k <= |events|
  {
    && j < k && events[j].Issue? && events[j].token == token
    && entry == Entry(events[j].plan, events[j].now + TTL_MS)
    && forall m :: j < m < k ==> !Touches(events[m], token)
  }

  /** The store holds exactly the entries of live issues. */
  lemma {:induction false} StoreExact(events: seq<Event>, k: nat, token: string, entry: Entry)
    requires k <= |events|
    ensures token in After(events, k) && After(events, k)[token] == entry
       <==> exists j: nat :: LiveIssue(events, j, k, token, entry)
  {
    if k == 0 {
    } else {
      StoreExact(events, k - 1, token, entry);
      var e := events[k - 1];
      if e.Issue? && e.token == token && entry == Entry(e.plan, e.now + TTL_MS) {
        assert LiveIssue(events, k - 1, k, token, entry);
      }
      if j: nat :| LiveIssue(events, j, k, token, entry) {
        assert j < k - 1 ==> LiveIssue(events, j, k - 1, token, entry) && !Touches(e, token);
      }
      if token in After(events, k) && After(events, k)[token] == entry && !Touches(e, token) {
        var j: nat :| LiveIssue(events, j, k - 1, token, entry);
        assert LiveIssue(events, j, k, token, entry);
      }
    }
  }

  /** What event `k` of the run gives to its caller. */
  function AnswerAt(events: seq<Event>, k: nat): Option<Plan>
    requires k < |events| && !events[k].Issue?
  {
    Answer(After(events, k), events[k].token, events[k].now)
  }

  /** A token yields a plan exactly when it was issued for that plan, was not consumed or issued
      again since, and has not expired. */
  lemma AnswerExact(events: seq<Event>, k: nat, plan: Plan)
    requires k < |events| && !events[k].Issue?
    ensures AnswerAt(events, k) == Some(plan)
       <==> exists j: nat :: j < k && events[j] == Issue(events[k].token, plan, events[j].now)
                        && events[k].now <= events[j].now + TTL_MS
                        && forall m :: j < m < k ==> !Touches(events[m], events[k].token)
  {
    var token, store := events[k].token, After(events, k);
    if AnswerAt(events, k) == Some(plan) {
      StoreExact(events, k, token, store[token]);
      var j: nat :| LiveIssue(events, j, k, token, store[token]);
      assert events[j] == Issue(token, plan, events[j].now);
    }
    if j: nat :| j < k && events[j] == Issue(token, plan, events[j].now) && events[k].now <= events[j].now + TTL_MS
                 && forall m :: j < m < k ==> !Touches(events[m], token) {
      var entry := Entry(plan, events[j].now + TTL_MS);
      assert LiveIssue(events, j, k, token, entry);
      StoreExact(events, k, token, entry);
    }
  }

  /** With fresh tokens, a token is consumed successfully at most once. */
  lemma ConsumedOnce(events: seq<Event>, i: nat, k: nat)
    requires i < k < |events| && events[i].Consume? && events[k].Consume? && events[i].token == events[k].token
    requires AnswerAt(events, i).Some? && AnswerAt(events, k).Some?
    ensures exists j :: i < j < k && events[j].Issue? && events[j].token == events[k].token
  {
    AnswerExact(events, k, AnswerAt(events, k).value);
    var j: nat :| j < k && events[j] == Issue(events[k].token, AnswerAt(events, k).value, events[j].now)
             && forall m :: j < m < k ==> !Touches(events[m], events[k].token);
    assert Touches(events[i], events[k].token);
  }
}
