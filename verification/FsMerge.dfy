/** Merging partial refreshes into the filesystem overview, `utils/fs-overview-merge.ts`, and the
    store that folds them, `stores/fs.ts`. */
module FsMerge {
  import opened Sequences

  /** The diagnostics of one scan. Kinds that are absent count as zero. */
  datatype Diagnostics = Diagnostics(
    findmnt: nat, lsblk: nat, df: nat, fileioData: nat, system: nat, other: nat,
    configBytes: nat, handlers: nat, fileioDevices: nat, lunMappings: nat, sysfsDevices: nat,
    vdiskFiles: Option<nat>, total: nat, eligible: nat, byKind: map<string, nat>,
    scanRoots: seq<string>, excluded: seq<string>, warnings: seq<string>)

  /** A scan. Its entries are opaque; `rest` stands for the fields that always come from the newest scan. */
  datatype Overview = Overview(
    partial: bool, mounts: seq<string>, vdiskFiles: seq<string>, fileioDevices: seq<string>,
    lunMappings: seq<string>, backends: seq<string>, links: seq<string>, candidates: Option<seq<string>>,
    scanWarnings: seq<string>, warnings: seq<string>, errors: seq<string>, diagnostics: Option<Diagnostics>,
    rest: string)

  datatype Outcome = Success(scan: Overview) | Failure(message: string)

  function Max(a: nat, b: nat): nat { if a < b then b else a }
  function OrZero(o: Option<nat>): nat { if o.Some? then o.value else 0 }
  function KindCount(m: map<string, nat>, k: string): nat { if k in m then m[k] else 0 }

  function PreferNonEmpty(next: seq<string>, prev: seq<string>): seq<string> {
    if |next| > 0 then next else if |prev| > 0 then prev else next
  }

  function MergedKinds(prev: map<string, nat>, next: map<string, nat>): map<string, nat> {
    map k | k in prev.Keys + next.Keys :: if k in next then Max(KindCount(prev, k), next[k]) else prev[k]
  }

  function MergeDiagnostics(p: Diagnostics, n: Diagnostics): Diagnostics {
    Diagnostics(
      Max(p.findmnt, n.findmnt), Max(p.lsblk, n.lsblk), Max(p.df, n.df), Max(p.fileioData, n.fileioData),
      Max(p.system, n.system), Max(p.other, n.other),
      Max(p.configBytes, n.configBytes), Max(p.handlers, n.handlers), Max(p.fileioDevices, n.fileioDevices),
      Max(p.lunMappings, n.lunMappings), Max(p.sysfsDevices, n.sysfsDevices),
      Some(Max(OrZero(p.vdiskFiles), OrZero(n.vdiskFiles))), Max(p.total, n.total), Max(p.eligible, n.eligible),
      MergedKinds(p.byKind, n.byKind),
      if |n.scanRoots| > 0 then n.scanRoots else p.scanRoots,
      Dedup(p.excluded + n.excluded), Dedup(p.warnings + n.warnings))
  }

  function Nonblank(): string -> bool { (w: string) => w != "" }

  function MergeWarnings(prev: Overview, next: Overview): seq<string> {
    Dedup(Filter(Nonblank(), prev.scanWarnings + prev.warnings + next.scanWarnings + next.warnings))
  }

  function MergedDiagnostics(p: Option<Diagnostics>, n: Option<Diagnostics>): Option<Diagnostics> {
    if p.Some? && n.Some? then Some(MergeDiagnostics(p.value, n.value)) else if n.Some? then n else p
  }

  function MergedCandidates(p: Option<seq<string>>, n: Option<seq<string>>): Option<seq<string>> {
    if n.Some? && |n.value| > 0 then n else if p.Some? then p else n
  }

  /** `mergeFsOverview`. */
  function Merge(prev: Option<Overview>, next: Overview): Overview {
    if prev.None? || !next.partial then next
    else
      var p := prev.value;
      next.(mounts := PreferNonEmpty(next.mounts, p.mounts),
            vdiskFiles := PreferNonEmpty(next.vdiskFiles, p.vdiskFiles),
            fileioDevices := PreferNonEmpty(next.fileioDevices, p.fileioDevices),
            lunMappings := PreferNonEmpty(next.lunMappings, p.lunMappings),
            backends := PreferNonEmpty(next.backends, p.backends),
            links := if |next.links| > 0 then next.links else p.links,
            candidates := MergedCandidates(p.candidates, next.candidates),
            scanWarnings := MergeWarnings(p, next),
            diagnostics := MergedDiagnostics(p.diagnostics, next.diagnostics))
  }

  /** The kinds once those in `done` have been merged. */
  function PartlyMerged(prev: map<string, nat>, next: map<string, nat>, done: set<string>): map<string, nat>
    requires done <= next.Keys
  {
    map k | k in prev.Keys + done :: if k in done then Max(KindCount(prev, k), next[k]) else prev[k]
  }

  lemma OneKindMore(prev: map<string, nat>, next: map<string, nat>, done: set<string>, k: string)
    requires done <= next.Keys && k in next && k !in done
    ensures PartlyMerged(prev, next, done + {k})
         == PartlyMerged(prev, next, done)[k := Max(KindCount(PartlyMerged(prev, next, done), k), next[k])]
  {
  }

  /** The loop over the kinds of the newer scan. */
  method MergeKinds(prev: map<string, nat>, next: map<string, nat>) returns (kinds: map<string, nat>)
    ensures kinds == MergedKinds(prev, next)
  {
    var left := next.Keys;
    kinds := prev;
    NothingMerged(prev, next);
    while left != {}
      invariant left <= next.Keys && kinds == PartlyMerged(prev, next, next.Keys - left)
      decreases left
    {
      var k :| k in left;
      OneKindMore(prev, next, next.Keys - left, k);
      kinds := kinds[k := Max(KindCount(kinds, k), next[k])];
      assert next.Keys - left + {k} == next.Keys - (left - {k});
      left := left - {k};
    }
    AllMerged(prev, next);
    assert next.Keys - left == next.Keys;
  }

  lemma NothingMerged(prev: map<string, nat>, next: map<string, nat>)
    ensures PartlyMerged(prev, next, next.Keys - next.Keys) == prev
  {
  }

  lemma AllMerged(prev: map<string, nat>, next: map<string, nat>)
    ensures PartlyMerged(prev, next, next.Keys) == MergedKinds(prev, next)
  {
  }

  lemma OneWarningMore(all: seq<string>, i: nat)
    requires i < |all|
    ensures Dedup(Filter(Nonblank(), all[..i + 1]))
         == var out := Dedup(Filter(Nonblank(), all[..i]));
            if all[i] != "" && all[i] !in out then out + [all[i]] else out
  {
    assert all[..i + 1][..i] == all[..i];
    var kept := Filter(Nonblank(), all[..i]);
    assert (kept + [all[i]])[..|kept|] == kept;
  }

  /** The loop over the warnings of one scan after the other. */
  method CollectWarnings(all: seq<string>) returns (out: seq<string>)
    ensures out == Dedup(Filter(Nonblank(), all))
  {
    out := [];
    for i := 0 to |all|
      invariant out == Dedup(Filter(Nonblank(), all[..i]))
    {
      OneWarningMore(all, i);
      if all[i] != "" && all[i] !in out {
        out := out + [all[i]];
      }
    }
    assert all[..|all|] == all;
  }

  // --- The store ------------------------------------------------------------------------

  /** The overview after a run of refreshes, each one finished before the next is started. */
  function Run(history: seq<Outcome>): Option<Overview> {
    if history == [] then None
    else
      var before, last := Run(history[..|history| - 1]), history[|history| - 1];
      if last.Failure? then before else Some(Merge(before, last.scan))
  }

  class FsStore {
    var overview: Option<Overview>
    var candidates: seq<string>
    var error: Option<string>
    var partialErrors: seq<string>
    var partialRefresh: bool
    var loading: bool
    ghost var history: seq<Outcome>

    ghost predicate Valid()
      reads this
    {
      overview == Run(history)
    }

    constructor ()
      ensures Valid() && history == []
    {
      overview, candidates, error, partialErrors, partialRefresh, loading := None, [], None, [], false, false;
      history := [];
    }

    /** The part of `fetchOverview` before the request: the overview to merge into is read here. */
    method StartFetch() returns (prior: Option<Overview>)
      modifies this`loading
      ensures loading && prior == overview
    {
      loading := true;
      prior := overview;
    }

    /** The part after the request. */
    method FinishFetch(prior: Option<Overview>, outcome: Outcome)
      modifies this
      ensures !loading && history == old(history) + [outcome]
      ensures overview == if outcome.Failure? then old(overview) else Some(Merge(prior, outcome.scan))
      ensures error == if outcome.Failure? then Some(outcome.message) else None
      ensures partialRefresh == (outcome.Success? && outcome.scan.partial)
      ensures partialErrors == if outcome.Failure? then [] else outcome.scan.errors
      ensures outcome.Failure? ==> candidates == old(candidates)
      ensures outcome.Success? ==>
                candidates == if overview.value.candidates.Some? then overview.value.candidates.value
                              else overview.value.backends
    {
      if outcome.Success? {
        var merged := Merge(prior, outcome.scan);
        overview := Some(merged);
        candidates := if merged.candidates.Some? then merged.candidates.value else merged.backends;
        error := None;
        partialErrors := outcome.scan.errors;
        partialRefresh := outcome.scan.partial;
      } else {
        error := Some(outcome.message);
        partialRefresh := false;
        partialErrors := [];
      }
      loading := false;
      history := history + [outcome];
    }

    method FetchOverview(outcome: Outcome)
      requires Valid()
      modifies this
      ensures Valid() && history == old(history) + [outcome]
    {
      var prior := StartFetch();
      FinishFetch(prior, outcome);
      assert history[..|history| - 1] == old(history);
    }
  }

  // --- What a run keeps -----------------------------------------------------------------

  /** The scans that count: the last full one, or the first of all, and every one since. */
  function Window(history: seq<Outcome>): seq<Overview> {
    if history == [] then []
    else
      var before, last := Window(history[..|history| - 1]), history[|history| - 1];
      if last.Failure? then before
      else if !last.scan.partial || before == [] then [last.scan]
      else before + [last.scan]
  }

  datatype ListField = Mounts | VdiskFiles | FileioDevices | LunMappings | Backends | Links

  function List(o: Overview, f: ListField): seq<string> {
    match f
    case Mounts => o.mounts
    case VdiskFiles => o.vdiskFiles
    case FileioDevices => o.fileioDevices
    case LunMappings => o.lunMappings
    case Backends => o.backends
    case Links => o.links
  }

  datatype CountField =
    | Findmnt | Lsblk | Df | FileioData | System | Other | ConfigBytes | Handlers | Devices | Luns | SysfsDevices
    | Vdisks | Total | Eligible | Kind(name: string)

  function Count(d: Diagnostics, f: CountField): nat {
    match f
    case Findmnt => d.findmnt
    case Lsblk => d.lsblk
    case Df => d.df
    case FileioData => d.fileioData
    case System => d.system
    case Other => d.other
    case ConfigBytes => d.configBytes
    case Handlers => d.handlers
    case Devices => d.fileioDevices
    case Luns => d.lunMappings
    case SysfsDevices => d.sysfsDevices
    case Vdisks => OrZero(d.vdiskFiles)
    case Total => d.total
    case Eligible => d.eligible
    case Kind(name) => KindCount(d.byKind, name)
  }

  /** `v` is the last non-empty value of the list in the window, and empty when there is none. */
  ghost predicate IsLatest(w: seq<Overview>, f: ListField, v: seq<string>) {
    || (v == [] && forall i :: 0 <= i < |w| ==> List(w[i], f) == [])
    || (v != [] && exists i: nat :: i < |w| && List(w[i], f) == v && forall j :: i < j < |w| ==> List(w[j], f) == [])
  }

  /** `v` is the greatest count among the scans of the window that carry diagnostics. */
  ghost predicate IsGreatest(w: seq<Overview>, f: CountField, v: nat) {
    && (forall o :: o in w && o.diagnostics.Some? ==> Count(o.diagnostics.value, f) <= v)
    && exists o :: o in w && o.diagnostics.Some? && Count(o.diagnostics.value, f) == v
  }

  lemma LatestExtended(w: seq<Overview>, o: Overview, f: ListField, v: seq<string>)
    requires IsLatest(w, f, v)
    ensures IsLatest(w + [o], f, if List(o, f) != [] then List(o, f) else v)
  {
    var x := w + [o];
    assert x[|w|] == o;
    if List(o, f) == [] && v != [] {
      var i: nat :| i < |w| && List(w[i], f) == v && forall j :: i < j < |w| ==> List(w[j], f) == [];
      assert List(x[i], f) == v;
    }
  }

  lemma LatestAlone(o: Overview, f: ListField)
    ensures IsLatest([o], f, List(o, f))
  {
    if List(o, f) != [] {
      assert List([o][0], f) == List(o, f);
    }
  }

  lemma ListMerged(prev: Overview, next: Overview, f: ListField)
    requires next.partial
    ensures List(Merge(Some(prev), next), f) == if List(next, f) != [] then List(next, f) else List(prev, f)
  {
  }

  lemma CountMerged(p: Diagnostics, n: Diagnostics, f: CountField)
    ensures Count(MergeDiagnostics(p, n), f) == Max(Count(p, f), Count(n, f))
  {
  }

  lemma {:induction false} WindowStarted(history: seq<Outcome>)
    ensures Run(history).Some? <==> Window(history) != []
  {
    if history == [] {
    } else {
      WindowStarted(history[..|history| - 1]);
    }
  }

  /** After any run of full, partial and failed refreshes, every list is the latest non-empty one
      since the last full refresh, and nothing is known only before the first success. */
  lemma {:induction false} ListsExact(history: seq<Outcome>, f: ListField)
    ensures Run(history).Some? <==> Window(history) != []
    ensures Run(history).Some? ==> IsLatest(Window(history), f, List(Run(history).value, f))
  {
    WindowStarted(history);
    if history == [] {
    } else {
      var init, last := history[..|history| - 1], history[|history| - 1];
      ListsExact(init, f);
      WindowStarted(init);
      if last.Success? {
        if !last.scan.partial || Window(init) == [] {
          LatestAlone(last.scan, f);
        } else {
          ListMerged(Run(init).value, last.scan, f);
          LatestExtended(Window(init), last.scan, f, List(Run(init).value, f));
        }
      }
    }
  }

  ghost predicate Carried(w: seq<Overview>) { exists o :: o in w && o.diagnostics.Some? }

  /** What the diagnostics of a window must be. */
  ghost predicate DiagnosticsOf(w: seq<Overview>, d: Option<Diagnostics>, f: CountField) {
    && (d.Some? <==> Carried(w))
    && (d.Some? ==> IsGreatest(w, f, Count(d.value, f)))
  }

  lemma DiagnosticsAlone(o: Overview, f: CountField)
    ensures DiagnosticsOf([o], o.diagnostics, f)
  {
    assert o in [o];
  }

  lemma DiagnosticsExtended(w: seq<Overview>, o: Overview, d: Option<Diagnostics>, f: CountField)
    requires DiagnosticsOf(w, d, f)
    ensures DiagnosticsOf(w + [o], MergedDiagnostics(d, o.diagnostics), f)
  {
    var x := w + [o];
    assert o in x && forall p :: p in x <==> p in w || p == o;
    if d.Some? && o.diagnostics.Some? {
      CountMerged(d.value, o.diagnostics.value, f);
    }
  }

  /** Every count is the greatest among the scans since the last full refresh that carry diagnostics. */
  lemma {:induction false} CountsExact(history: seq<Outcome>, f: CountField)
    requires Run(history).Some?
    ensures DiagnosticsOf(Window(history), Run(history).value.diagnostics, f)
  {
    var init, last := history[..|history| - 1], history[|history| - 1];
    WindowStarted(init);
    if Window(init) == [] {
    } else {
      CountsExact(init, f);
    }
    if last.Success? {
      if !last.scan.partial || Window(init) == [] {
        DiagnosticsAlone(last.scan, f);
      } else {
        DiagnosticsExtended(Window(init), last.scan, Run(init).value.diagnostics, f);
      }
    }
  }

  // --- Warnings -------------------------------------------------------------------------

  predicate Warns(o: Overview, w: string) { w in o.scanWarnings || w in o.warnings }

  lemma WarningsMerged(prev: Overview, next: Overview, w: string)
    requires next.partial && w != ""
    ensures Warns(Merge(Some(prev), next), w) <==> Warns(prev, w) || Warns(next, w)
  {
    var all := prev.scanWarnings + prev.warnings + next.scanWarnings + next.warnings;
    assert w in MergeWarnings(prev, next) <==> w in all;
  }

  /** No warning since the last full refresh is lost, and none is invented. */
  lemma {:induction false} WarningsExact(history: seq<Outcome>, w: string)
    requires Run(history).Some? && w != ""
    ensures Warns(Run(history).value, w) <==> exists o :: o in Window(history) && Warns(o, w)
  {
    var init, last := history[..|history| - 1], history[|history| - 1];
    WindowStarted(init);
    if Window(init) == [] {
    } else {
      WarningsExact(init, w);
    }
    if last.Success? {
      if !last.scan.partial || Window(init) == [] {
        assert last.scan in [last.scan];
      } else {
        WarningsMerged(Run(init).value, last.scan, w);
        var x := Window(init) + [last.scan];
        assert last.scan in x && forall p :: p in x <==> p in Window(init) || p == last.scan;
      }
    }
  }

  // --- Overlapping refreshes ------------------------------------------------------------

  /** The list of an overview that may not be there yet. */
  function Shown(o: Option<Overview>, f: ListField): seq<string> {
    if o.Some? then List(o.value, f) else []
  }

  lemma ShownMerged(prev: Option<Overview>, next: Overview, f: ListField)
    ensures List(Merge(prev, next), f)
         == if next.partial && List(next, f) == [] then Shown(prev, f) else List(next, f)
  {
    if prev.Some? && next.partial {
      ListMerged(prev.value, next, f);
    }
  }

  /** Two refreshes that overlap both merge into what the store held when they started. The list of the
      one that finishes last survives, so the list is the one of a sequential run exactly when that one is
      full or has found something itself, or the first one left the list as it was. */
  lemma OverlapExact(prior: Option<Overview>, first: Overview, second: Overview, f: ListField)
    ensures List(Merge(prior, second), f) == List(Merge(Some(Merge(prior, first)), second), f)
       <==> !second.partial || List(second, f) != []
            || List(first, f) == Shown(prior, f) || (first.partial && List(first, f) == [])
  {
    ShownMerged(prior, first, f);
    ShownMerged(prior, second, f);
    ShownMerged(Some(Merge(prior, first)), second, f);
  }

  /** If the first of two overlapping refreshes finds mounts and the second none, where there were none
      before, the mounts are lost. */
  lemma OverlapExample(prior: Overview, first: Overview, second: Overview)
    requires first.partial && second.partial && prior.mounts == second.mounts == [] && first.mounts == ["/mnt/a"]
    ensures Merge(Some(prior), second).mounts == []
    ensures Merge(Some(Merge(Some(prior), first)), second).mounts == ["/mnt/a"]
  {
  }

  /** If a full refresh finds that a mount is gone and a partial one that overlaps it finds no mounts, the
      mount is shown again. */
  lemma GoneMountExample(prior: Overview, first: Overview, second: Overview)
    requires !first.partial && second.partial && prior.mounts == ["/mnt/gone"] && first.mounts == second.mounts == []
    ensures Merge(Some(prior), first).mounts == [] && Merge(Some(prior), second).mounts == ["/mnt/gone"]
    ensures Merge(Some(Merge(Some(prior), first)), second).mounts == []
  {
  }
}
