/** The registry of background pollers, `utils/polling-coordinator.ts`, and the calls pages and the
    session make to it, `utils/app-polling.ts`. */
module Polling {
  import opened Sequences
  import opened Text

  /** A poller. `id` tells handles of the same name apart. */
  datatype Handle = Handle(name: string, id: nat)

  /** What the calls ask their surroundings. */
  datatype Env = Env(hidden: bool, authenticated: bool, path: string)

  const OVERVIEW_ROUTES: set<string> := {"/", "/targets", "/devices", "/sessions"}
  const STATS_ROUTES: set<string> := {"/stats"}

  const SSH := Handle("ssh", 0)
  const OVERVIEW := Handle("overview", 0)
  const STATS := Handle("stats", 0)

  /** The registry in insertion order, its flags, and the handles that have been started and not
      stopped since. */
  datatype State = State(pollers: seq<Handle>, paused: bool, started: bool, bootstrapped: bool, running: set<Handle>)

  datatype Event =
    | StartCore(env: Env) | StartRegistered(env: Env) | StopAll | PauseAll | ResumeAll(env: Env)
    | RegisterPage(handle: Handle, env: Env) | Unregister(name: string)

  // --- Single steps ---------------------------------------------------------------------

  function NotNamed(name: string): Handle -> bool { (h: Handle) => h.name != name }
  function Called(name: string): Handle -> bool { (h: Handle) => h.name == name }

  /** `Map.set`: a known name keeps its place. */
  function Put(pollers: seq<Handle>, h: Handle): seq<Handle> {
    if pollers == [] then [h]
    else if pollers[0].name == h.name then [h] + pollers[1..]
    else [pollers[0]] + Put(pollers[1..], h)
  }

  /** `registerPoller`. */
  function Registered(s: State, h: Handle): State { s.(pollers := Put(s.pollers, h)) }

  /** `unregisterPoller`. */
  function Unregistered(s: State, name: string): State {
    var found := Find(Called(name), s.pollers);
    s.(running := if found.Some? then s.running - {found.value} else s.running,
       pollers := Filter(NotNamed(name), s.pollers))
  }

  function AllStopped(s: State): State { s.(running := s.running - Elems(s.pollers)) }

  predicate RouteAllows(name: string, path: string) {
    if name == "overview" then path in OVERVIEW_ROUTES || StartsWith(path, "/targets/")
    else if name == "stats" then path in STATS_ROUTES
    else true
  }

  function Allowed(pollers: seq<Handle>, path: string): set<Handle> {
    set h | h in pollers && RouteAllows(h.name, path)
  }

  predicate CanPoll(s: State, env: Env) { !s.paused && !env.hidden && env.authenticated }

  /** `startRegisteredPollers`: those the route allows are started, the others stopped. */
  function RegisteredStarted(s: State, env: Env): State {
    if !CanPoll(s, env) then s
    else s.(started := true, running := s.running - Elems(s.pollers) + Allowed(s.pollers, env.path))
  }

  function Resumed(s: State, env: Env): State {
    if !s.paused then s
    else if !s.started then s.(paused := false)
    else RegisteredStarted(s.(paused := false), env)
  }

  /** `ensureCoordinator`. */
  function Bootstrapped(s: State): State {
    if s.bootstrapped then s
    else Registered(Registered(Registered(s.(bootstrapped := true), SSH), OVERVIEW), STATS)
  }

  function PageRegistered(s: State, h: Handle, env: Env): State {
    var t := Registered(Unregistered(Bootstrapped(s), h.name), h);
    if !t.paused && env.authenticated then t.(running := t.running + {h}) else t
  }

  function Step(s: State, e: Event): State {
    match e
    case StartCore(env) =>
      if !env.authenticated then s else RegisteredStarted(Resumed(Bootstrapped(s), env), env)
    case StartRegistered(env) => RegisteredStarted(s, env)
    case StopAll => AllStopped(Bootstrapped(s).(started := false))
    case PauseAll => if s.paused then s else AllStopped(s.(paused := true))
    case ResumeAll(env) => Resumed(s, env)
    case RegisterPage(h, env) => PageRegistered(s, h, env)
    case Unregister(name) => Unregistered(s, name)
  }

  const INITIAL: State := State([], false, false, false, {})

  function Run(events: seq<Event>): State {
    if events == [] then INITIAL else Step(Run(events[..|events| - 1]), events[|events| - 1])
  }

  // --- The coordinator ------------------------------------------------------------------

  class Coordinator {
    var pollers: seq<Handle>
    var paused: bool
    var started: bool
    var bootstrapped: bool
    var running: set<Handle>

    function View(): State
      reads this
    {
      State(pollers, paused, started, bootstrapped, running)
    }

    constructor ()
      ensures View() == INITIAL
    {
      pollers, paused, started, bootstrapped, running := [], false, false, false, {};
    }

    method RegisterPoller(h: Handle)
      modifies this`pollers
      ensures View() == Registered(old(View()), h)
    {
      pollers := Put(pollers, h);
    }

    method UnregisterPoller(name: string)
      modifies this`pollers, this`running
      ensures View() == Unregistered(old(View()), name)
    {
      var p := Find(Called(name), pollers);
      if p.Some? {
        running := running - {p.value};
      }
      pollers := Filter(NotNamed(name), pollers);
    }

    method StopEach()
      modifies this`running
      ensures View() == AllStopped(old(View()))
    {
      for i := 0 to |pollers|
        invariant running == old(running) - Elems(pollers[..i])
      {
        assert pollers[..i + 1] == pollers[..i] + [pollers[i]];
        running := running - {pollers[i]};
      }
      assert pollers[..|pollers|] == pollers;
    }

    method PauseAllPolling()
      modifies this
      ensures View() == Step(old(View()), PauseAll)
    {
      if paused {
        return;
      }
      paused := true;
      StopEach();
    }

    method ResumeAllPolling(env: Env)
      modifies this
      ensures View() == Step(old(View()), ResumeAll(env))
    {
      if !paused {
        return;
      }
      paused := false;
      if !started {
        return;
      }
      StartRegisteredPollers(env);
    }

    method StartRegisteredPollers(env: Env)
      modifies this
      ensures View() == Step(old(View()), StartRegistered(env))
    {
      if paused || env.hidden || !env.authenticated {
        return;
      }
      started := true;
      for i := 0 to |pollers|
        invariant pollers == old(pollers) && paused == old(paused) && started && bootstrapped == old(bootstrapped)
        invariant running == old(running) - Elems(pollers[..i]) + Allowed(pollers[..i], env.path)
      {
        ghost var before := running;
        if !RouteAllows(pollers[i].name, env.path) {
          running := running - {pollers[i]};
          OneMoreStarted(old(running), before, pollers, i, env.path);
          continue;
        }
        running := running + {pollers[i]};
        OneMoreStarted(old(running), before, pollers, i, env.path);
      }
      assert pollers[..|pollers|] == pollers;
    }

    method StopAllRegisteredPollers()
      modifies this
      ensures View() == AllStopped(old(View()).(started := false))
    {
      started := false;
      StopEach();
    }

    method EnsureCoordinator()
      modifies this
      ensures View() == Bootstrapped(old(View()))
    {
      if bootstrapped {
        return;
      }
      bootstrapped := true;
      RegisterPoller(SSH);
      RegisterPoller(OVERVIEW);
      RegisterPoller(STATS);
    }

    method StopAllAppPolling()
      modifies this
      ensures View() == Step(old(View()), StopAll)
    {
      EnsureCoordinator();
      StopAllRegisteredPollers();
    }

    method StartCoreAppPolling(env: Env)
      modifies this
      ensures View() == Step(old(View()), StartCore(env))
    {
      if !env.authenticated {
        return;
      }
      EnsureCoordinator();
      ResumeAllPolling(env);
      StartRegisteredPollers(env);
    }

    method RegisterPagePoller(h: Handle, env: Env)
      modifies this
      ensures View() == Step(old(View()), RegisterPage(h, env))
    {
      EnsureCoordinator();
      UnregisterPoller(h.name);
      RegisterPoller(h);
      if !paused && env.authenticated {
        running := running + {h};
      }
    }
  }

  lemma OneMoreStarted(first: set<Handle>, before: set<Handle>, pollers: seq<Handle>, i: nat, path: string)
    requires i < |pollers|
    requires before == first - Elems(pollers[..i]) + Allowed(pollers[..i], path)
    ensures first - Elems(pollers[..i + 1]) + Allowed(pollers[..i + 1], path)
         == if RouteAllows(pollers[i].name, path) then before + {pollers[i]} else before - {pollers[i]}
  {
    assert pollers[..i + 1] == pollers[..i] + [pollers[i]];
  }

  // --- What every run keeps -------------------------------------------------------------

  ghost predicate DistinctNames(pollers: seq<Handle>) {
    forall i, j :: 0 <= i < j < |pollers| ==> pollers[i].name != pollers[j].name
  }

  /** Nothing runs while paused, and only registered handles run. Before the core pollers are
      registered, nothing is. */
  ghost predicate Sound(s: State) {
    && (s.paused ==> s.running == {})
    && (forall h :: h in s.running ==> h in s.pollers)
    && DistinctNames(s.pollers)
    && (!s.bootstrapped ==> s.pollers == [])
  }

  lemma {:induction false} PutElements(pollers: seq<Handle>, h: Handle)
    requires forall p :: p in pollers ==> p.name != h.name
    ensures Put(pollers, h) == pollers + [h]
  {
    if pollers == [] {
    } else {
      assert pollers[0] in pollers;
      PutElements(pollers[1..], h);
      assert pollers == [pollers[0]] + pollers[1..];
    }
  }

  lemma {:induction false} FilterDistinct(pollers: seq<Handle>, name: string)
    requires DistinctNames(pollers)
    ensures DistinctNames(Filter(NotNamed(name), pollers))
  {
    if pollers == [] {
    } else {
      var init, last := pollers[..|pollers| - 1], pollers[|pollers| - 1];
      FilterDistinct(init, name);
      var kept := Filter(NotNamed(name), init);
      forall p | p in kept ensures p.name != last.name {
        assert p in init;
      }
    }
  }

  lemma RegisteredSound(s: State, h: Handle)
    requires Sound(s) && s.bootstrapped && forall p :: p in s.pollers ==> p.name != h.name
    ensures Sound(Registered(s, h)) && Registered(s, h).pollers == s.pollers + [h]
  {
    PutElements(s.pollers, h);
  }

  lemma UnregisteredSound(s: State, name: string)
    requires Sound(s)
    ensures Sound(Unregistered(s, name)) && forall p :: p in Unregistered(s, name).pollers ==> p.name != name
  {
    FilterDistinct(s.pollers, name);
    var t := Unregistered(s, name);
    forall h | h in t.running ensures h in t.pollers {
      NamedOnce(s.pollers, h);
    }
  }

  lemma NamedOnce(pollers: seq<Handle>, h: Handle)
    requires DistinctNames(pollers) && h in pollers
    ensures Find(Called(h.name), pollers) == Some(h)
  {
    var i: nat :| i < |pollers| && pollers[i] == h;
    FindFirst(Called(h.name), pollers, i);
  }

  lemma BootstrappedSound(s: State)
    requires Sound(s)
    ensures Sound(Bootstrapped(s)) && Bootstrapped(s).bootstrapped && Bootstrapped(s).running == s.running
    ensures Bootstrapped(s).paused == s.paused && Bootstrapped(s).started == s.started
  {
    if !s.bootstrapped {
      PutElements([], SSH);
      PutElements([SSH], OVERVIEW);
      PutElements([SSH, OVERVIEW], STATS);
      assert Bootstrapped(s).pollers == [SSH, OVERVIEW, STATS];
    }
  }

  lemma StartedSound(s: State, env: Env)
    requires Sound(s)
    ensures Sound(RegisteredStarted(s, env))
  {
  }

  lemma PageSound(s: State, h: Handle, env: Env)
    requires Sound(s)
    ensures Sound(PageRegistered(s, h, env))
  {
    BootstrappedSound(s);
    UnregisteredSound(Bootstrapped(s), h.name);
    RegisteredSound(Unregistered(Bootstrapped(s), h.name), h);
    var t := Registered(Unregistered(Bootstrapped(s), h.name), h);
    assert h in t.pollers;
  }

  lemma StepSound(s: State, e: Event)
    requires Sound(s)
    ensures Sound(Step(s, e))
  {
    BootstrappedSound(s);
    match e
    case StartCore(env) =>
      StartedSound(Bootstrapped(s).(paused := false), env);
      StartedSound(Resumed(Bootstrapped(s), env), env);
    case StartRegistered(env) => StartedSound(s, env);
    case ResumeAll(env) => StartedSound(s.(paused := false), env);
    case RegisterPage(h, env) => PageSound(s, h, env);
    case Unregister(name) => UnregisteredSound(s, name);
    case _ =>
  }

  /** In every reachable state nothing runs while polling is paused, and every running poller is the
      handle currently registered under its name. */
  lemma {:induction false} RunSound(events: seq<Event>)
    ensures Sound(Run(events))
    ensures forall h :: h in Run(events).running ==> Find(Called(h.name), Run(events).pollers) == Some(h)
  {
    if events == [] {
    } else {
      RunSound(events[..|events| - 1]);
      StepSound(Run(events[..|events| - 1]), events[|events| - 1]);
    }
    forall h | h in Run(events).running ensures Find(Called(h.name), Run(events).pollers) == Some(h) {
      NamedOnce(Run(events).pollers, h);
    }
  }

  lemma OneMore(events: seq<Event>, e: Event)
    ensures Run(events + [e]) == Step(Run(events), e)
  {
    assert (events + [e])[..|events|] == events;
  }

  /** Starting the registered pollers leaves running exactly those the route allows. */
  lemma StartExact(events: seq<Event>, env: Env)
    requires CanPoll(Run(events), env)
    ensures var t := Run(events + [StartRegistered(env)]);
            forall h :: h in t.running <==> h in t.pollers && RouteAllows(h.name, env.path)
  {
    OneMore(events, StartRegistered(env));
    RunSound(events);
  }

  // --- After everything was stopped -----------------------------------------------------

  predicate StartsNothing(e: Event) { e.StopAll? || e.PauseAll? || e.ResumeAll? || e.Unregister? }

  /** After everything was stopped, pausing, resuming and unregistering start nothing. */
  lemma {:induction false} QuietAfterStop(events: seq<Event>, later: seq<Event>)
    requires forall e :: e in later ==> StartsNothing(e)
    ensures Run(events + [StopAll] + later).running == {} && !Run(events + [StopAll] + later).started
    decreases |later|
  {
    if later == [] {
      assert events + [StopAll] + later == events + [StopAll];
      OneMore(events, StopAll);
      RunSound(events);
      BootstrappedSound(Run(events));
    } else {
      var init, last := later[..|later| - 1], later[|later| - 1];
      assert events + [StopAll] + later == events + [StopAll] + init + [last];
      assert last in later;
      QuietAfterStop(events, init);
      OneMore(events + [StopAll] + init, last);
      RunSound(events + [StopAll] + init);
      BootstrappedSound(Run(events + [StopAll] + init));
    }
  }

  /** A page that registers its poller after everything was stopped starts it all the same, exactly
      if polling is not paused and the session is authenticated. */
  lemma RegisterAfterStop(events: seq<Event>, h: Handle, env: Env)
    ensures var t := Run(events + [StopAll] + [RegisterPage(h, env)]);
            t.running == if !Run(events).paused && env.authenticated then {h} else {}
  {
    QuietAfterStop(events, []);
    assert events + [StopAll] + [] == events + [StopAll];
    OneMore(events, StopAll);
    OneMore(events + [StopAll], RegisterPage(h, env));
    RunSound(events);
    BootstrappedSound(Run(events));
    RunSound(events + [StopAll]);
    BootstrappedSound(Run(events + [StopAll]));
  }

  // --- Registering without stopping -----------------------------------------------------

  /** `registerPoller` by itself replaces a running handle without stopping it: the old handle goes on
      running unregistered, and pausing does not stop it. Registering is safe exactly when the handle
      it replaces is not running, or is the new one. */
  lemma RawRegisterExact(s: State, h: Handle)
    requires Sound(s) && s.bootstrapped
    ensures Sound(Registered(s, h)) <==> forall p :: p in s.running && p.name == h.name ==> p == h
  {
    PutExact(s.pollers, h);
    if forall p :: p in s.running && p.name == h.name ==> p == h {
      forall p | p in s.running ensures p in Put(s.pollers, h) {
      }
    }
  }

  lemma {:induction false} PutExact(pollers: seq<Handle>, h: Handle)
    requires DistinctNames(pollers)
    ensures forall p :: p in Put(pollers, h) <==> p == h || (p in pollers && p.name != h.name)
    ensures DistinctNames(Put(pollers, h))
  {
    if pollers == [] {
    } else {
      assert pollers == [pollers[0]] + pollers[1..];
      if pollers[0].name == h.name {
      } else {
        PutExact(pollers[1..], h);
      }
      assert forall p :: p in pollers[1..] ==> p.name != pollers[0].name;
    }
  }
}
