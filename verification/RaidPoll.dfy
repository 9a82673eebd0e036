/** The progress polling of the RAID store, `stores/raid.ts` and `utils/raid-md-progress.ts`. */
module RaidPoll {
  import opened Sequences

  const MAX_FAILURES: nat := 3

  datatype ArrayState = Resync | Recovering | OtherState
  datatype ProgressAction = ResyncAction | Recovery | Reshape | Check | Repair | UnknownAction
  datatype Progress = Progress(action: ProgressAction, percent: real, speedKbps: Option<real>, finishEta: string)
  datatype MdArray = MdArray(state: ArrayState, progress: Option<Progress>)

  predicate HasActiveMdArrayProgress(a: MdArray) {
    if a.state == Resync || a.state == Recovering then true
    else if a.progress.None? then false
    else if a.progress.value.action == UnknownAction then false
    else a.progress.value.percent < 100.0 || a.progress.value.speedKbps.Some? || a.progress.value.finishEta != ""
  }

  predicate HasActiveProgress(overview: Option<seq<MdArray>>) {
    overview.Some? && exists a :: a in overview.value && HasActiveMdArrayProgress(a)
  }

  /** A request that has been sent and not answered yet, and the SAN it asks for. */
  datatype Fetch = Fetch(silent: bool, reconcile: bool, sanId: string)

  datatype Outcome = Success(overview: seq<MdArray>) | Failure(message: string)

  /** The store, with the intervals the browser runs for it and the requests under way. A blank or
      absent `sanId` both mean that no SAN is set. */
  datatype State = State(
    overview: Option<seq<MdArray>>, sanId: string, timer: Option<nat>, autoRefresh: bool, failures: nat, paused: bool,
    pollInFlight: bool, polling: bool, loading: bool, warning: Option<string>, error: Option<string>,
    live: set<nat>, nextId: nat, fetches: seq<Fetch>)

  /** Everything that can happen. `Answer(k, o)` answers the request at position `k`. */
  datatype Event =
    | Start(silent: bool, reconcile: bool) | Tick(id: nat) | Answer(k: nat, outcome: Outcome) | Reconcile
    | Pause | Resume | StopPolling | Teardown | OpenPage(sanId: string) | ClearWarning

  // --- Single steps ---------------------------------------------------------------------

  function Stopped(s: State): State {
    s.(live := if s.timer.Some? then s.live - {s.timer.value} else s.live, timer := None, autoRefresh := false)
  }

  function Reconciled(s: State): State {
    if s.paused || s.sanId == "" then Stopped(s)
    else if HasActiveProgress(s.overview) then
      if s.timer.Some? then s
      else s.(autoRefresh := true, failures := 0, timer := Some(s.nextId), live := s.live + {s.nextId},
              nextId := s.nextId + 1)
    else Stopped(s)
  }

  function Started(s: State, silent: bool, reconcile: bool): State {
    if silent && s.pollInFlight then s
    else
      var marked := if silent then s.(polling := true) else s.(loading := true, error := None);
      marked.(pollInFlight := true, fetches := s.fetches + [Fetch(silent, reconcile, s.sanId)])
  }

  /** A silent failure counts, and the third one in a row stops the polling. */
  function CountedFailure(s: State, message: string): State {
    var counted := s.(failures := s.failures + 1);
    if counted.failures >= MAX_FAILURES then Stopped(counted).(warning := Some(message)) else counted
  }

  function Settled(s: State, f: Fetch, o: Outcome): State {
    match o
    case Success(overview) => s.(overview := Some(overview), failures := if f.silent then 0 else s.failures)
    case Failure(message) => if f.silent then CountedFailure(s, message) else s.(error := Some(message))
  }

  function Unmarked(s: State, f: Fetch): State {
    if f.silent then s.(pollInFlight := false, polling := false) else s.(pollInFlight := false, loading := false)
  }

  function Without(fetches: seq<Fetch>, k: nat): seq<Fetch>
    requires k < |fetches|
  {
    fetches[..k] + fetches[k + 1..]
  }

  function Answered(s: State, k: nat, o: Outcome): State
    requires k < |s.fetches|
  {
    var f := s.fetches[k];
    var settled := Unmarked(Settled(s.(fetches := Without(s.fetches, k)), f, o), f);
    if f.reconcile && o.Success? then Reconciled(settled) else settled
  }

  function PollingStopped(s: State): State { Stopped(s).(paused := false, failures := 0) }
  function TornDown(s: State): State { PollingStopped(s).(sanId := "", warning := None) }

  /** One event. A tick of an interval that is not running and an answer to no request do nothing. */
  function Step(s: State, e: Event): State {
    match e
    case Start(silent, reconcile) => Started(s, silent, reconcile)
    case Tick(id) => if id in s.live then Started(s, true, true) else s
    case Answer(k, o) => if k < |s.fetches| then Answered(s, k, o) else s
    case Reconcile => Reconciled(s)
    case Pause => Stopped(s.(paused := true))
    case Resume => Reconciled(s.(paused := false))
    case StopPolling => PollingStopped(s)
    case Teardown => TornDown(s)
    case OpenPage(sanId) => TornDown(s).(sanId := sanId)
    case ClearWarning => s.(warning := None)
  }

  const INITIAL: State :=
    State(None, "", None, false, 0, false, false, false, false, None, None, {}, 1, [])

  function Run(events: seq<Event>): State {
    if events == [] then INITIAL else Step(Run(events[..|events| - 1]), events[|events| - 1])
  }

  // --- The store ------------------------------------------------------------------------

  class RaidStore {
    var overview: Option<seq<MdArray>>
    var sanId: string
    var progressPollTimer: Option<nat>
    var autoRefreshActive: bool
    var progressPollFailures: nat
    var progressPollPaused: bool
    var pollInFlight: bool
    var polling: bool
    var loading: bool
    var progressPollWarning: Option<string>
    var error: Option<string>
    // What runs outside the store: the intervals of the browser and the requests under way.
    var live: set<nat>
    var nextId: nat
    var fetches: seq<Fetch>

    function View(): State
      reads this
    {
      State(overview, sanId, progressPollTimer, autoRefreshActive, progressPollFailures, progressPollPaused,
            pollInFlight, polling, loading, progressPollWarning, error, live, nextId, fetches)
    }

    constructor ()
      ensures View() == INITIAL
    {
      overview, sanId, progressPollTimer, autoRefreshActive := None, "", None, false;
      progressPollFailures, progressPollPaused, pollInFlight, polling := 0, false, false, false;
      loading, progressPollWarning, error, live, nextId, fetches := false, None, None, {}, 1, [];
    }

    /** `fetchOverview` up to the request. */
    method BeginFetch(silent: bool, reconcile: bool) returns (sent: bool)
      modifies this
      ensures View() == Step(old(View()), Start(silent, reconcile))
      ensures sent <==> !(silent && old(pollInFlight))
    {
      if silent && pollInFlight {
        return false;
      }
      if !silent {
        loading := true;
        error := None;
      } else {
        polling := true;
      }
      pollInFlight := true;
      fetches := fetches + [Fetch(silent, reconcile, sanId)];
      sent := true;
    }

    /** `fetchOverview` from the answer on. */
    method EndFetch(k: nat, outcome: Outcome) returns (ok: bool)
      requires k < |fetches|
      modifies this
      ensures View() == Step(old(View()), Answer(k, outcome))
      ensures ok <==> outcome.Success?
    {
      var f := fetches[k];
      fetches := Without(fetches, k);
      ok := outcome.Success?;
      Settle(f, outcome);
      Unmark(f);
      if f.reconcile && ok {
        ReconcileProgressPolling();
      }
    }

    method Settle(f: Fetch, outcome: Outcome)
      modifies this
      ensures View() == Settled(old(View()), f, outcome)
    {
      match outcome {
        case Success(data) =>
          overview := Some(data);
          if f.silent {
            progressPollFailures := 0;
          }
        case Failure(message) =>
          if f.silent {
            progressPollFailures := progressPollFailures + 1;
            if progressPollFailures >= MAX_FAILURES {
              StopProgressPolling();
              progressPollWarning := Some(message);
            }
          } else {
            error := Some(message);
          }
      }
    }

    method Unmark(f: Fetch)
      modifies this`pollInFlight, this`loading, this`polling
      ensures View() == Unmarked(old(View()), f)
    {
      pollInFlight := false;
      if !f.silent {
        loading := false;
      } else {
        polling := false;
      }
    }

    /** The browser runs the callback of an interval. */
    method IntervalTick(id: nat)
      modifies this
      ensures View() == Step(old(View()), Tick(id))
    {
      if id in live {
        var sent := BeginFetch(true, true);
      }
    }

    method ReconcileProgressPolling()
      modifies this
      ensures View() == Reconciled(old(View()))
    {
      if progressPollPaused || sanId == "" {
        StopProgressPolling();
        return;
      }
      if HasActiveProgress(overview) {
        if progressPollTimer.None? {
          autoRefreshActive := true;
          progressPollFailures := 0;
          progressPollTimer := Some(nextId);
          live, nextId := live + {nextId}, nextId + 1;
        }
      } else {
        StopProgressPolling();
      }
    }

    method StopProgressPolling()
      modifies this
      ensures View() == Stopped(old(View()))
    {
      if progressPollTimer.Some? {
        live := live - {progressPollTimer.value};
      }
      progressPollTimer := None;
      autoRefreshActive := false;
    }

    method PauseProgressPolling()
      modifies this
      ensures View() == Step(old(View()), Pause)
    {
      progressPollPaused := true;
      StopProgressPolling();
    }

    method ResumeProgressPolling()
      modifies this
      ensures View() == Step(old(View()), Resume)
    {
      progressPollPaused := false;
      ReconcileProgressPolling();
    }

    method EndPolling()
      modifies this
      ensures View() == Step(old(View()), StopPolling)
    {
      StopProgressPolling();
      progressPollPaused := false;
      progressPollFailures := 0;
    }

    method TeardownRaidPage()
      modifies this
      ensures View() == Step(old(View()), Teardown)
    {
      EndPolling();
      sanId := "";
      ClearProgressPollWarning();
    }

    method ClearProgressPollWarning()
      modifies this`progressPollWarning
      ensures View() == Step(old(View()), ClearWarning)
    {
      progressPollWarning := None;
    }

    /** What a page does when it shows a SAN. */
    method BindRaidPage(id: string)
      modifies this
      ensures View() == Step(old(View()), OpenPage(id))
    {
      TeardownRaidPage();
      sanId := id;
    }
  }

  // --- What every run keeps -------------------------------------------------------------

  /** At most one interval runs, it is the one the store holds, and it runs only while polling is
      allowed: shown as active, not paused, below the limit of failures, and with a SAN. */
  ghost predicate Sound(s: State) {
    && s.live == (if s.timer.Some? then {s.timer.value} else {})
    && (s.timer.Some? <==> s.autoRefresh)
    && (s.timer.Some? ==> !s.paused && s.failures < MAX_FAILURES && s.sanId != "" && s.timer.value < s.nextId)
  }

  /** Stopping repairs everything but the intervals, which must be known. */
  lemma ReconciledSound(s: State)
    requires Sound(s) || (Sound(s.(paused := true)) && s.timer.None?)
    ensures Sound(Reconciled(s))
    ensures Reconciled(s).timer.Some? <==> !s.paused && s.sanId != "" && HasActiveProgress(s.overview)
  {
  }

  lemma SettledSound(s: State, f: Fetch, o: Outcome)
    requires Sound(s)
    ensures Sound(Settled(s, f, o))
  {
  }

  lemma AnsweredSound(s: State, k: nat, o: Outcome)
    requires Sound(s) && k < |s.fetches|
    ensures Sound(Answered(s, k, o))
  {
    var f, taken := s.fetches[k], s.(fetches := Without(s.fetches, k));
    SettledSound(taken, f, o);
    ReconciledSound(Unmarked(Settled(taken, f, o), f));
  }

  lemma StepSound(s: State, e: Event)
    requires Sound(s)
    ensures Sound(Step(s, e))
  {
    match e
    case Answer(k, o) => if k < |s.fetches| { AnsweredSound(s, k, o); }
    case Reconcile => ReconciledSound(s);
    case Resume => ReconciledSound(s.(paused := false));
    case _ =>
  }

  /** Every interleaving of requests, answers, ticks, pauses, resumes, stops and teardowns is sound. */
  lemma {:induction false} RunSound(events: seq<Event>)
    ensures Sound(Run(events))
  {
    if events == [] {
    } else {
      RunSound(events[..|events| - 1]);
      StepSound(Run(events[..|events| - 1]), events[|events| - 1]);
    }
  }

  /** Right after a successful reconciling answer the interval runs exactly when polling is not
      paused, a SAN is set and the answer shows progress. */
  lemma AnswerReconciles(events: seq<Event>, k: nat, overview: seq<MdArray>)
    requires var s := Run(events); k < |s.fetches| && s.fetches[k].reconcile
    ensures var s, t := Run(events), Run(events + [Answer(k, Success(overview))]);
            && (t.timer.Some? <==> !s.paused && s.sanId != "" && HasActiveProgress(Some(overview)))
            && (t.timer.Some? <==> |t.live| == 1)
  {
    var s, e := Run(events), Answer(k, Success(overview));
    assert (events + [e])[..|events|] == events;
    RunSound(events);
    RunSound(events + [e]);
    var f := s.fetches[k];
    var taken := s.(fetches := Without(s.fetches, k));
    SettledSound(taken, f, Success(overview));
    ReconciledSound(Unmarked(Settled(taken, f, Success(overview)), f));
  }

  /** From a running interval, a silent failure stops it exactly when it is the third in a row, and
      then, and only then, leaves a warning of its own. */
  lemma FailureExact(events: seq<Event>, k: nat, message: string)
    requires var s := Run(events); s.timer.Some? && k < |s.fetches| && s.fetches[k].silent
    ensures var s, t := Run(events), Run(events + [Answer(k, Failure(message))]);
            && (t.timer.None? <==> s.failures == MAX_FAILURES - 1)
            && t.failures == s.failures + 1
            && t.warning == if s.failures == MAX_FAILURES - 1 then Some(message) else s.warning
  {
    assert (events + [Answer(k, Failure(message))])[..|events|] == events;
    RunSound(events);
  }

  ghost predicate OpensPage(e: Event) { e.OpenPage? && e.sanId != "" }

  ghost predicate Quiet(s: State) { s.sanId == "" && s.timer.None? && s.live == {} }

  lemma QuietAnswer(s: State, k: nat, o: Outcome)
    requires Sound(s) && Quiet(s) && k < |s.fetches|
    ensures Quiet(Answered(s, k, o))
  {
    assert Settled(s.(fetches := Without(s.fetches, k)), s.fetches[k], o).sanId == "";
    AnsweredSound(s, k, o);
  }

  lemma QuietStep(s: State, e: Event)
    requires Sound(s) && Quiet(s) && !OpensPage(e)
    ensures Quiet(Step(s, e))
  {
    StepSound(s, e);
    if e.Answer? && e.k < |s.fetches| {
      QuietAnswer(s, e.k, e.outcome);
    }
  }

  /** After a teardown no interval runs until a page is opened again, whatever else happens, also
      when requests sent before it are answered. */
  lemma {:induction false} QuietAfterTeardown(events: seq<Event>, later: seq<Event>)
    requires forall e :: e in later ==> !OpensPage(e)
    ensures Quiet(Run(events + [Teardown] + later))
    decreases |later|
  {
    if later == [] {
      assert events + [Teardown] + later == events + [Teardown];
      OneMore(events, Teardown);
      RunSound(events);
    } else {
      var init, last := later[..|later| - 1], later[|later| - 1];
      assert events + [Teardown] + later == events + [Teardown] + init + [last];
      assert last in later;
      QuietAfterTeardown(events, init);
      RunSound(events + [Teardown] + init);
      OneMore(events + [Teardown] + init, last);
      QuietStep(Run(events + [Teardown] + init), last);
    }
  }

  lemma OneMore(events: seq<Event>, e: Event)
    ensures Run(events + [e]) == Step(Run(events), e)
  {
    assert (events + [e])[..|events|] == events;
  }

  // --- Requests that overlap ------------------------------------------------------------

  lemma StartEffect(s: State, silent: bool, reconcile: bool)
    ensures var t := Started(s, silent, reconcile);
            && t.pollInFlight && t.sanId == s.sanId
            && t.fetches == if silent && s.pollInFlight then s.fetches
                            else s.fetches + [Fetch(silent, reconcile, s.sanId)]
  {
  }

  lemma SettledFetches(s: State, f: Fetch, o: Outcome)
    ensures Settled(s, f, o).fetches == s.fetches && Settled(s, f, o).sanId == s.sanId
  {
  }

  lemma AnswerEffect(s: State, k: nat, o: Outcome)
    requires k < |s.fetches|
    ensures Answered(s, k, o).fetches == Without(s.fetches, k) && !Answered(s, k, o).pollInFlight
    ensures Answered(s, k, o).sanId == s.sanId
  {
    SettledFetches(s.(fetches := Without(s.fetches, k)), s.fetches[k], o);
  }

  /** At most one request is under way, and the flag tells whether one is. */
  ghost predicate Single(s: State) {
    |s.fetches| <= 1 && (s.pollInFlight <==> |s.fetches| == 1)
  }

  /** An ordinary request is sent only when none is under way. */
  ghost predicate OrdinaryAlone(events: seq<Event>) {
    forall i :: 0 <= i < |events| && events[i].Start? && !events[i].silent ==> Run(events[..i]).fetches == []
  }

  ghost predicate NeverTwo(events: seq<Event>) {
    forall i :: 0 <= i <= |events| ==> |Run(events[..i]).fetches| <= 1
  }

  lemma SingleStep(s: State, e: Event)
    requires Single(s) && (e.Start? && !e.silent ==> s.fetches == [])
    ensures Single(Step(s, e))
  {
    match e
    case Start(silent, reconcile) => StartEffect(s, silent, reconcile);
    case Tick(id) => StartEffect(s, true, true);
    case Answer(k, o) => if k < |s.fetches| { AnswerEffect(s, k, o); }
    case _ => assert Step(s, e).fetches == s.fetches && Step(s, e).pollInFlight == s.pollInFlight;
  }

  lemma {:induction false} AloneSingle(events: seq<Event>, i: nat)
    requires OrdinaryAlone(events) && i <= |events|
    ensures Single(Run(events[..i]))
  {
    if i == 0 {
    } else {
      AloneSingle(events, i - 1);
      assert events[..i] == events[..i - 1] + [events[i - 1]];
      OneMore(events[..i - 1], events[i - 1]);
      SingleStep(Run(events[..i - 1]), events[i - 1]);
    }
  }

  /** Requests never overlap exactly in the runs that send no ordinary request while another one, silent
      or not, is under way. Silent requests do not matter: those of the interval are held back. */
  lemma OneRequestExact(events: seq<Event>)
    ensures NeverTwo(events) <==> OrdinaryAlone(events)
  {
    if OrdinaryAlone(events) {
      forall i | 0 <= i <= |events| ensures |Run(events[..i]).fetches| <= 1 {
        AloneSingle(events, i);
      }
    }
    if NeverTwo(events) {
      forall i | 0 <= i < |events| && events[i].Start? && !events[i].silent
        ensures Run(events[..i]).fetches == []
      {
        assert events[..i + 1] == events[..i] + [events[i]];
        OneMore(events[..i], events[i]);
        StartEffect(Run(events[..i]), false, events[i].reconcile);
        assert |Run(events[..i + 1]).fetches| <= 1;
      }
    }
  }

  /** An answer to any request clears the one flag all of them share: right after it a tick of the
      running interval sends a silent request although others, silent ones included, are still under way. */
  lemma AnswerOpensGate(events: seq<Event>, k: nat, o: Outcome, id: nat)
    requires k < |Run(events).fetches| && id in Run(events + [Answer(k, o)]).live
    ensures Run(events + [Answer(k, o)] + [Tick(id)]).fetches
         == Without(Run(events).fetches, k) + [Fetch(true, true, Run(events).sanId)]
  {
    OneMore(events, Answer(k, o));
    OneMore(events + [Answer(k, o)], Tick(id));
    AnswerEffect(Run(events), k, o);
    StartEffect(Run(events + [Answer(k, o)]), true, true);
  }

  /** The first interval of the page runs, and these requests are under way. */
  ghost predicate Ticking(s: State, sanId: string, fetches: seq<Fetch>) {
    s.timer == Some(1) && s.live == {1} && s.sanId == sanId && s.fetches == fetches
  }

  const ORDINARY := Start(false, true)

  function Ordinary(sanId: string): Fetch { Fetch(false, true, sanId) }
  function Silent(sanId: string): Fetch { Fetch(true, true, sanId) }

  /** A page is opened, and its first request is answered with progress. */
  function Opened(sanId: string, busy: seq<MdArray>): seq<Event> {
    [OpenPage(sanId)] + [ORDINARY] + [Answer(0, Success(busy))]
  }

  lemma FirstRequest(sanId: string)
    ensures var s := Run([OpenPage(sanId)] + [ORDINARY]);
            s.sanId == sanId && s.fetches == [Ordinary(sanId)] && s.timer.None? && s.live == {} && s.nextId == 1
            && !s.paused && s.overview.None?
  {
    OneMore([], OpenPage(sanId));
    assert [] + [OpenPage(sanId)] == [OpenPage(sanId)];
    OneMore([OpenPage(sanId)], ORDINARY);
  }

  lemma OpenedTicks(sanId: string, busy: seq<MdArray>)
    requires sanId != "" && HasActiveProgress(Some(busy))
    ensures Ticking(Run(Opened(sanId, busy)), sanId, []) && !Run(Opened(sanId, busy)).pollInFlight
  {
    FirstRequest(sanId);
    OneMore([OpenPage(sanId)] + [ORDINARY], Answer(0, Success(busy)));
    AnswerEffect(Run([OpenPage(sanId)] + [ORDINARY]), 0, Success(busy));
    assert Without([Ordinary(sanId)], 0) == [];
  }

  lemma TickSends(s: State, sanId: string, fetches: seq<Fetch>)
    requires Ticking(s, sanId, fetches) && !s.pollInFlight
    ensures Ticking(Step(s, Tick(1)), sanId, fetches + [Silent(sanId)]) && Step(s, Tick(1)).pollInFlight
  {
  }

  lemma OrdinarySends(s: State, sanId: string, fetches: seq<Fetch>)
    requires Ticking(s, sanId, fetches)
    ensures Ticking(Step(s, ORDINARY), sanId, fetches + [Ordinary(sanId)])
  {
  }

  lemma OrdinaryFails(s: State, sanId: string, message: string)
    requires Ticking(s, sanId, [Silent(sanId), Ordinary(sanId)])
    ensures Ticking(Step(s, Answer(1, Failure(message))), sanId, [Silent(sanId)])
    ensures !Step(s, Answer(1, Failure(message))).pollInFlight
  {
    AnswerEffect(s, 1, Failure(message));
    assert Without([Silent(sanId), Ordinary(sanId)], 1) == [Silent(sanId)];
  }

  /** While a silent request of the interval is under way, the user refreshes and that request fails;
      the next tick sends a second silent request beside the first. */
  lemma SilentOverlap(sanId: string, busy: seq<MdArray>, message: string)
    requires sanId != "" && HasActiveProgress(Some(busy))
    ensures var run := Opened(sanId, busy) + [Tick(1)] + [ORDINARY] + [Answer(1, Failure(message))] + [Tick(1)];
            Run(run).fetches == [Silent(sanId), Silent(sanId)]
  {
    var e0 := Opened(sanId, busy);
    var e1 := e0 + [Tick(1)];
    var e2 := e1 + [ORDINARY];
    var e3 := e2 + [Answer(1, Failure(message))];
    OpenedTicks(sanId, busy);
    OneMore(e0, Tick(1));
    TickSends(Run(e0), sanId, []);
    OneMore(e1, ORDINARY);
    OrdinarySends(Run(e1), sanId, [Silent(sanId)]);
    OneMore(e2, Answer(1, Failure(message)));
    OrdinaryFails(Run(e2), sanId, message);
    OneMore(e3, Tick(1));
    TickSends(Run(e3), sanId, [Silent(sanId)]);
  }

  // --- Whose overview is shown ----------------------------------------------------------

  /** The SAN whose overview is shown: the one that the request of the last successful answer asked for. */
  function ShownFor(events: seq<Event>): Option<string> {
    if events == [] then None
    else
      var init, last := events[..|events| - 1], events[|events| - 1];
      if last.Answer? && last.outcome.Success? && last.k < |Run(init).fetches|
      then Some(Run(init).fetches[last.k].sanId) else ShownFor(init)
  }

  /** Every request under way asks for the SAN that is set. */
  ghost predicate Own(s: State) { forall f :: f in s.fetches ==> f.sanId == s.sanId }

  ghost predicate AlwaysOwn(events: seq<Event>) {
    forall i :: 0 <= i <= |events| ==> Own(Run(events[..i]))
  }

  /** The SAN changes only while no request is under way. */
  ghost predicate SwitchesIdle(events: seq<Event>) {
    forall i :: 0 <= i < |events| && Step(Run(events[..i]), events[i]).sanId != Run(events[..i]).sanId
                ==> Run(events[..i]).fetches == []
  }

  lemma OwnStep(s: State, e: Event)
    requires Own(s)
    ensures Own(Step(s, e)) <==> Step(s, e).sanId == s.sanId || s.fetches == []
  {
    match e
    case Start(silent, reconcile) => StartEffect(s, silent, reconcile);
    case Tick(id) => StartEffect(s, true, true);
    case Answer(k, o) => if k < |s.fetches| { AnswerEffect(s, k, o); }
    case _ =>
      assert Step(s, e).fetches == s.fetches;
      assert s.fetches != [] ==> s.fetches[0] in s.fetches;
  }

  lemma {:induction false} IdleOwn(events: seq<Event>, i: nat)
    requires SwitchesIdle(events) && i <= |events|
    ensures Own(Run(events[..i]))
  {
    if i == 0 {
    } else {
      IdleOwn(events, i - 1);
      assert events[..i] == events[..i - 1] + [events[i - 1]];
      OneMore(events[..i - 1], events[i - 1]);
      OwnStep(Run(events[..i - 1]), events[i - 1]);
    }
  }

  /** The requests under way always ask for the SAN that is set, exactly in the runs that change the SAN
      only while no request is under way. */
  lemma OwnRequestsExact(events: seq<Event>)
    ensures AlwaysOwn(events) <==> SwitchesIdle(events)
  {
    if SwitchesIdle(events) {
      forall i | 0 <= i <= |events| ensures Own(Run(events[..i])) {
        IdleOwn(events, i);
      }
    }
    if AlwaysOwn(events) {
      forall i | 0 <= i < |events| && Step(Run(events[..i]), events[i]).sanId != Run(events[..i]).sanId
        ensures Run(events[..i]).fetches == []
      {
        assert events[..i + 1] == events[..i] + [events[i]];
        OneMore(events[..i], events[i]);
        assert Own(Run(events[..i])) && Own(Run(events[..i + 1]));
        OwnStep(Run(events[..i]), events[i]);
      }
    }
  }

  /** Right after a successful answer the overview shown is that of the SAN that is set, exactly when
      the request was sent for it. */
  lemma ShownExact(events: seq<Event>, k: nat, overview: seq<MdArray>)
    requires k < |Run(events).fetches|
    ensures var after := events + [Answer(k, Success(overview))];
            && Run(after).overview == Some(overview)
            && (ShownFor(after) == Some(Run(after).sanId) <==> Run(events).fetches[k].sanId == Run(events).sanId)
  {
    var e := Answer(k, Success(overview));
    OneMore(events, e);
    AnswerEffect(Run(events), k, Success(overview));
    assert (events + [e])[..|events|] == events;
  }

  /** The page changes from one SAN to another while the first request is under way; its answer is shown
      for the second SAN, and starts the interval of the second SAN. */
  lemma ForeignShown(a: string, b: string, busy: seq<MdArray>)
    requires a != b && b != "" && HasActiveProgress(Some(busy))
    ensures var run := [OpenPage(a)] + [ORDINARY] + [OpenPage(b)] + [Answer(0, Success(busy))];
            && Run(run).sanId == b && Run(run).overview == Some(busy) && ShownFor(run) == Some(a)
            && Run(run).timer.Some?
  {
    var e0 := [OpenPage(a)] + [ORDINARY];
    var e1 := e0 + [OpenPage(b)];
    FirstRequest(a);
    OneMore(e0, OpenPage(b));
    ShownExact(e1, 0, busy);
    AnswerReconciles(e1, 0, busy);
    OneMore(e1, Answer(0, Success(busy)));
    AnswerEffect(Run(e1), 0, Success(busy));
    assert (e1 + [Answer(0, Success(busy))])[..|e1|] == e1;
  }

  // --- The count of failures ------------------------------------------------------------

  /** The event answers a silent request with a failure. */
  predicate Fails(s: State, e: Event) {
    e.Answer? && e.k < |s.fetches| && s.fetches[e.k].silent && e.outcome.Failure?
  }

  /** The event answers a silent request with success, starts an interval, or stops the polling. */
  predicate Resets(s: State, e: Event) {
    || (e.Answer? && e.k < |s.fetches| && s.fetches[e.k].silent && e.outcome.Success?)
    || (s.timer.None? && Step(s, e).timer.Some?)
    || e.StopPolling? || e.Teardown? || e.OpenPage?
  }

  /** The silent failures from position `from` of the run on. */
  function FailuresFrom(events: seq<Event>, from: nat): nat
    requires from <= |events|
    decreases |events|
  {
    if |events| == from then 0
    else
      var init, last := events[..|events| - 1], events[|events| - 1];
      FailuresFrom(init, from) + if Fails(Run(init), last) then 1 else 0
  }

  /** Nothing from position `from` of the run on resets the count, and it starts there: at the beginning,
      or right after a reset. */
  ghost predicate LastReset(events: seq<Event>, from: nat) {
    && from <= |events|
    && (from > 0 ==> Resets(Run(events[..from - 1]), events[from - 1]))
    && forall i :: from <= i < |events| ==> !Resets(Run(events[..i]), events[i])
  }

  lemma LastResetStep(init: seq<Event>, last: Event, from: nat)
    requires LastReset(init, from) && !Resets(Run(init), last)
    ensures LastReset(init + [last], from)
  {
    var events := init + [last];
    assert from > 0 ==> events[..from - 1] == init[..from - 1];
    forall i | from <= i < |events|
      ensures !Resets(Run(events[..i]), events[i])
    {
      assert events[..i] == init[..i];
    }
  }

  /** Every run has such a position. */
  lemma {:induction false} LastResetExists(events: seq<Event>) returns (from: nat)
    ensures LastReset(events, from)
    decreases |events|
  {
    if events == [] {
      from := 0;
    } else {
      var init, last := events[..|events| - 1], events[|events| - 1];
      if Resets(Run(init), last) {
        from := |events|;
      } else {
        from := LastResetExists(init);
        LastResetStep(init, last, from);
        assert events == init + [last];
      }
    }
  }

  lemma AnswerCount(s: State, k: nat, o: Outcome)
    requires Sound(s) && k < |s.fetches|
    ensures Answered(s, k, o).failures
         == if Resets(s, Answer(k, o)) then 0 else if Fails(s, Answer(k, o)) then s.failures + 1 else s.failures
  {
    var f, taken := s.fetches[k], s.(fetches := Without(s.fetches, k));
    SettledSound(taken, f, o);
    var settled := Unmarked(Settled(taken, f, o), f);
    assert Answered(s, k, o) == if f.reconcile && o.Success? then Reconciled(settled) else settled;
    assert o.Success? ==> settled.timer == s.timer;
  }

  lemma CountStep(s: State, e: Event)
    requires Sound(s)
    ensures Step(s, e).failures == if Resets(s, e) then 0 else if Fails(s, e) then s.failures + 1 else s.failures
  {
    if e.Answer? && e.k < |s.fetches| {
      AnswerCount(s, e.k, e.outcome);
    }
  }

  /** The counter holds the silent failures in a row: those since the last silent success, the last start
      of an interval and the last stop of the polling. */
  lemma {:induction false} FailuresExact(events: seq<Event>, from: nat)
    requires LastReset(events, from)
    ensures Run(events).failures == FailuresFrom(events, from)
    decreases |events|
  {
    if events == [] {
    } else {
      var init, last := events[..|events| - 1], events[|events| - 1];
      RunSound(init);
      CountStep(Run(init), last);
      if from == |events| {
      } else {
        assert forall i :: 0 <= i <= |init| ==> init[..i] == events[..i];
        FailuresExact(init, from);
        assert !Resets(Run(events[..|init|]), events[|init|]);
        assert events[..|init|] == init;
      }
    }
  }

  /** While an interval runs, a silent failure stops it exactly when it is the third in a row, and then,
      and only then, leaves a warning of its own. */
  lemma ThirdFailureStops(events: seq<Event>, from: nat, k: nat, message: string)
    requires LastReset(events, from)
    requires var s := Run(events); s.timer.Some? && k < |s.fetches| && s.fetches[k].silent
    ensures var s, t := Run(events), Run(events + [Answer(k, Failure(message))]);
            && (t.timer.None? <==> FailuresFrom(events, from) == 2)
            && t.warning == if FailuresFrom(events, from) == 2 then Some(message) else s.warning
  {
    FailuresExact(events, from);
    FailureExact(events, k, message);
  }
}
