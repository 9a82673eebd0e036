/** Coalescing concurrent work by key, `utils/single-flight.ts`. */
module SingleFlight {
  import opened Sequences
  import opened Collation

  datatype Outcome = Fulfilled(value: string) | Rejected(reason: string)

  /** An execution of the work of a key. It is settled once it has an outcome. */
  datatype Execution = Execution(key: string, outcome: Option<Outcome>)

  /** The entries of the map, and every execution ever started, which its position identifies. */
  datatype State = State(inFlight: map<string, nat>, executions: seq<Execution>)

  /** What can happen. The work of a call that throws at once is never entered in the map. */
  datatype Event =
    | Call(key: string, throws: bool)
    | Settle(execution: nat, outcome: Outcome)
    | Clear(key: string)

  predicate Pending(s: State, e: nat) { e < |s.executions| && s.executions[e].outcome.None? }

  /** The execution a call would wait for, if its work does not throw. */
  function Served(s: State, key: string): nat {
    if key in s.inFlight then s.inFlight[key] else |s.executions|
  }

  function CallMade(s: State, key: string, throws: bool): State {
    if key in s.inFlight || throws then s
    else s.(executions := s.executions + [Execution(key, None)], inFlight := s.inFlight[key := |s.executions|])
  }

  /** The entry is removed by key, whatever execution it stands for. */
  function Settled(s: State, e: nat, o: Outcome): State
    requires Pending(s, e)
  {
    s.(executions := s.executions[e := s.executions[e].(outcome := Some(o))],
       inFlight := s.inFlight - {s.executions[e].key})
  }

  /** A blank key clears everything. */
  function Cleared(s: State, key: string): State {
    s.(inFlight := if key != "" then s.inFlight - {key} else map[])
  }

  function Step(s: State, e: Event): State {
    match e
    case Call(key, throws) => CallMade(s, key, throws)
    case Settle(x, o) => if Pending(s, x) then Settled(s, x, o) else s
    case Clear(key) => Cleared(s, key)
  }

  const INITIAL: State := State(map[], [])

  function Run(events: seq<Event>): State {
    if events == [] then INITIAL else Step(Run(events[..|events| - 1]), events[|events| - 1])
  }

  class Coalescer {
    var inFlight: map<string, nat>
    var executions: seq<Execution>

    function View(): State
      reads this
    {
      State(inFlight, executions)
    }

    constructor ()
      ensures View() == INITIAL
    {
      inFlight, executions := map[], [];
    }

    /** `singleFlight`: the execution the caller waits for, or none when the work throws at once. */
    method Join(key: string, throws: bool) returns (served: Option<nat>)
      modifies this
      ensures View() == Step(old(View()), Call(key, throws))
      ensures served == if key !in old(inFlight) && throws then None else Some(Served(old(View()), key))
    {
      if key in inFlight {
        return Some(inFlight[key]);
      }
      if throws {
        return None;
      }
      executions := executions + [Execution(key, None)];
      inFlight := inFlight[key := |executions| - 1];
      served := Some(|executions| - 1);
    }

    /** The callback that runs when an execution settles. */
    method Finish(e: nat, o: Outcome)
      requires Pending(View(), e)
      modifies this
      ensures View() == Step(old(View()), Settle(e, o))
    {
      inFlight := inFlight - {executions[e].key};
      executions := executions[e := executions[e].(outcome := Some(o))];
    }

    method ClearSingleFlight(key: string)
      modifies this`inFlight
      ensures View() == Step(old(View()), Clear(key))
    {
      if key != "" {
        inFlight := inFlight - {key};
      } else {
        inFlight := map[];
      }
    }
  }

  // --- What every run without clearing keeps --------------------------------------------

  /** The map holds exactly the executions that are not settled, each under its key. */
  ghost predicate Sound(s: State) {
    && (forall k :: k in s.inFlight ==> Pending(s, s.inFlight[k]) && s.executions[s.inFlight[k]].key == k)
    && (forall e: nat :: Pending(s, e) ==> s.executions[e].key in s.inFlight && s.inFlight[s.executions[e].key] == e)
  }

  ghost predicate NoClear(events: seq<Event>) { forall e :: e in events ==> !e.Clear? }

  lemma CallSound(s: State, key: string, throws: bool)
    requires Sound(s)
    ensures Sound(CallMade(s, key, throws))
  {
    var t := CallMade(s, key, throws);
    if key !in s.inFlight && !throws {
      forall e: nat | Pending(t, e) ensures t.executions[e].key in t.inFlight && t.inFlight[t.executions[e].key] == e {
        if e < |s.executions| {
          assert Pending(s, e);
        }
      }
    }
  }

  lemma SettleSound(s: State, e: nat, o: Outcome)
    requires Sound(s) && Pending(s, e)
    ensures Sound(Settled(s, e, o))
  {
    var t := Settled(s, e, o);
    forall x: nat | Pending(t, x) ensures t.executions[x].key in t.inFlight && t.inFlight[t.executions[x].key] == x {
      assert Pending(s, x) && x != e;
    }
  }

  lemma StepSound(s: State, e: Event)
    requires Sound(s) && !e.Clear?
    ensures Sound(Step(s, e))
  {
    match e
    case Call(key, throws) => CallSound(s, key, throws);
    case Settle(x, o) => if Pending(s, x) { SettleSound(s, x, o); }
  }

  lemma {:induction false} RunSound(events: seq<Event>)
    requires NoClear(events)
    ensures Sound(Run(events))
  {
    if events == [] {
    } else {
      var init, last := events[..|events| - 1], events[|events| - 1];
      assert last in events && forall e :: e in init ==> e in events;
      RunSound(init);
      StepSound(Run(init), last);
    }
  }

  /** At any time at most one execution of a key is unsettled. */
  lemma OneAtATime(events: seq<Event>, d: nat, e: nat)
    requires NoClear(events) && Pending(Run(events), d) && Pending(Run(events), e)
    requires Run(events).executions[d].key == Run(events).executions[e].key
    ensures d == e
  {
    RunSound(events);
  }

  lemma OneMore(events: seq<Event>, e: Event)
    ensures Run(events + [e]) == Step(Run(events), e)
  {
    assert (events + [e])[..|events|] == events;
  }

  /** Executions are never forgotten, keep their keys, and keep the outcome they got. */
  ghost predicate Extends(s: State, t: State) {
    && |s.executions| <= |t.executions|
    && forall e :: 0 <= e < |s.executions| ==>
         t.executions[e].key == s.executions[e].key
         && (s.executions[e].outcome.Some? ==> t.executions[e].outcome == s.executions[e].outcome)
  }

  lemma StepExtends(s: State, e: Event)
    ensures Extends(s, Step(s, e))
  {
  }

  /** Whatever happens later, clearing included, an outcome is final: every call that was served an
      execution sees the same outcome of it. */
  lemma {:induction false} OutcomeFinal(events: seq<Event>, later: seq<Event>)
    ensures Extends(Run(events), Run(events + later))
    decreases |later|
  {
    if later == [] {
      assert events + later == events;
    } else {
      var init, last := later[..|later| - 1], later[|later| - 1];
      assert events + later == events + init + [last];
      OutcomeFinal(events, init);
      OneMore(events + init, last);
      StepExtends(Run(events + init), last);
    }
  }

  ghost predicate SettledIn(later: seq<Event>, e: nat) { exists o :: Settle(e, o) in later }

  /** An execution that is under way stays so until it is settled. */
  lemma {:induction false} PendingUntilSettled(events: seq<Event>, later: seq<Event>, e: nat)
    requires Pending(Run(events), e)
    ensures Pending(Run(events + later), e) <==> !SettledIn(later, e)
    decreases |later|
  {
    if later == [] {
      assert events + later == events;
    } else {
      var init, last := later[..|later| - 1], later[|later| - 1];
      assert events + later == events + init + [last];
      PendingUntilSettled(events, init, e);
      OneMore(events + init, last);
      OutcomeFinal(events, init);
      assert later == init + [last];
      assert SettledIn(later, e) <==> SettledIn(init, e) || (last.Settle? && last.execution == e) by {
        if last.Settle? && last.execution == e {
          assert Settle(e, last.outcome) in later;
        }
        if SettledIn(init, e) {
          var o :| Settle(e, o) in init;
          assert Settle(e, o) in later;
        }
      }
    }
  }

  /** Two calls for a key are served by the same execution exactly when it is not settled between them. */
  lemma SameExecution(events: seq<Event>, key: string, later: seq<Event>)
    requires NoClear(events) && NoClear(later)
    ensures var e := Served(Run(events), key);
            Served(Run(events + [Call(key, false)] + later), key) == e <==> !SettledIn(later, e)
  {
    var e := Served(Run(events), key);
    var called := events + [Call(key, false)];
    RunSound(events);
    OneMore(events, Call(key, false));
    assert Pending(Run(called), e) && Run(called).executions[e].key == key;
    PendingUntilSettled(called, later, e);
    OutcomeFinal(called, later);
    RunSound(called + later);
  }

  /** Settling one execution leaves the entries of all other keys as they are. */
  lemma OthersUntouched(events: seq<Event>, e: nat, o: Outcome, key: string)
    requires Pending(Run(events), e) && key != Run(events).executions[e].key
    ensures var s, t := Run(events), Run(events + [Settle(e, o)]);
            && (key in t.inFlight <==> key in s.inFlight)
            && (key in s.inFlight ==> t.inFlight[key] == s.inFlight[key])
            && Served(t, key) == Served(s, key)
  {
    OneMore(events, Settle(e, o));
  }

  // --- Clearing -------------------------------------------------------------------------

  /** Clearing a key keeps the map right exactly when no execution of it is under way; clearing with the
      blank key, which removes every entry, exactly when none at all is. */
  lemma ClearExact(s: State, key: string)
    requires Sound(s)
    ensures Sound(Cleared(s, key))
       <==> forall e: nat :: Pending(s, e) ==> key != "" && s.executions[e].key != key
  {
    var t := Cleared(s, key);
    assert forall e: nat :: Pending(t, e) <==> Pending(s, e);
    if forall e: nat :: Pending(s, e) ==> key != "" && s.executions[e].key != key {
      assert Sound(t);
    }
  }

  /** After a clear while work is under way, the entry of the next execution is removed when the old
      one settles, and a third is started beside the second although nothing was cleared again. */
  lemma ClearBreaksCoalescing(key: string, o: Outcome)
    requires key != ""
    ensures var first := [] + [Call(key, false)] + [Clear(key)] + [Call(key, false)];
            var s := Run(first + [Settle(0, o)] + [Call(key, false)]);
            Pending(s, 1) && Pending(s, 2) && s.executions[1].key == s.executions[2].key == key
  {
    var x := Execution(key, None);
    var e1: seq<Event> := [] + [Call(key, false)];
    OneMore([], Call(key, false));
    assert Run(e1) == State(map[key := 0], [x]);
    OneMore(e1, Clear(key));
    assert Run(e1 + [Clear(key)]) == State(map[], [x]);
    OneMore(e1 + [Clear(key)], Call(key, false));
    var e3 := e1 + [Clear(key)] + [Call(key, false)];
    assert Run(e3) == State(map[key := 1], [x, x]);
    OneMore(e3, Settle(0, o));
    assert Run(e3 + [Settle(0, o)]) == State(map[], [x.(outcome := Some(o)), x]);
    OneMore(e3 + [Settle(0, o)], Call(key, false));
  }

  // --- Keys -----------------------------------------------------------------------------

  /** A parameter of a request; its value is rendered already. */
  datatype Parameter = Parameter(name: string, value: string)

  function NameOf(): Parameter -> string { (p: Parameter) => p.name }
  function WithName(name: string): Parameter -> bool { (p: Parameter) => p.name == name }

  function Pick(query: seq<Parameter>): string -> Option<Parameter> { (name: string) => Find(WithName(name), query) }

  /** `singleFlightKey`. `render` stands for the rendering of the parameters in the order of the sorted names. */
  function SingleFlightKey(le: (string, string) -> bool, render: seq<Option<Parameter>> -> string,
                           url: string, query: seq<Parameter>): string
  {
    url + "?" + render(Map(Pick(query), Sort(le, Map(NameOf(), query))))
  }

  ghost predicate DistinctNames(query: seq<Parameter>) {
    forall i, j :: 0 <= i < j < |query| ==> query[i].name != query[j].name
  }

  lemma PickExact(query: seq<Parameter>, p: Parameter)
    requires DistinctNames(query) && p in query
    ensures Pick(query)(p.name) == Some(p)
  {
    var i: nat :| i < |query| && query[i] == p;
    FindFirst(WithName(p.name), query, i);
  }

  lemma SamePick(a: seq<Parameter>, b: seq<Parameter>, name: string)
    requires DistinctNames(a) && DistinctNames(b) && forall p :: p in a <==> p in b
    ensures Pick(a)(name) == Pick(b)(name)
  {
    if Pick(a)(name).Some? {
      PickExact(b, Pick(a)(name).value);
    }
    if Pick(b)(name).Some? {
      PickExact(a, Pick(b)(name).value);
    }
  }

  lemma {:induction false} SameMap<A(!new), B>(f: A -> B, g: A -> B, s: seq<A>)
    requires forall x :: f(x) == g(x)
    ensures Map(f, s) == Map(g, s)
  {
    if s == [] {
    } else {
      SameMap(f, g, s[..|s| - 1]);
    }
  }

  /** The key does not depend on the order in which the parameters are given. */
  lemma KeyOrderFree(le: (string, string) -> bool, render: seq<Option<Parameter>> -> string, url: string,
                     a: seq<Parameter>, b: seq<Parameter>)
    requires TotalOrder(le) && multiset(a) == multiset(b) && DistinctNames(a) && DistinctNames(b)
    ensures SingleFlightKey(le, render, url, a) == SingleFlightKey(le, render, url, b)
  {
    SameMultisetSameElements(a, b);
    MapPermutation(NameOf(), a, b);
    SortCanonical(le, Map(NameOf(), a), Map(NameOf(), b));
    forall name ensures Pick(a)(name) == Pick(b)(name) {
      SamePick(a, b, name);
    }
    SameMap(Pick(a), Pick(b), Sort(le, Map(NameOf(), a)));
  }
}
