/** Splitting the output of a probe script at its markers: `section` of
    `server/utils/cluster-reader.ts` and of `server/utils/advanced-storage-collector.ts`. */
module ProbeSections {
  import opened Sequences
  import opened Text

  const CLUSTER_NAMES: seq<string> :=
    ["CRM_MON", "COROSYNC", "RCCONF", "SVCSTATUS", "ALUA", "DRBD_JSON", "DRBD_PROC", "DRBD_RCCONF", "DRBD_SVC",
     "HOSTNAME", "END"]

  const STORAGE_NAMES: seq<string> :=
    ["TOOLS", "RCCONF", "SVCSTATUS", "DRBD_JSON", "DRBD_PROC", "DRBD_RCCONF", "DRBD_SVC", "MULTIPATH", "ZPOOL",
     "ZFSLIST", "MHVTL", "BCACHE", "DMCACHE", "LVMCACHE", "RBD", "RBDMAP", "DEPRECATED", "LSBLK_ADV", "END"]

  function Marker(name: string): string {
    "%%" + name + "%%"
  }

  predicate OccursAt(text: string, m: string, p: int) {
    0 <= p && p + |m| <= |text| && text[p..p + |m|] == m
  }

  /** `text.indexOf(m, from)`. */
  function IndexOf(text: string, m: string, from: nat): (r: int)
    ensures r == -1 || (from <= r && OccursAt(text, m, r))
    ensures forall p :: from <= p && (r == -1 || p < r) ==> !OccursAt(text, m, p)
    decreases |text| - from
  {
    if from + |m| > |text| then -1
    else if text[from..from + |m|] == m then from
    else IndexOf(text, m, from + 1)
  }

  /** `MARKERS.indexOf(marker)`. */
  function NameIndex(names: seq<string>, name: string): (r: int)
    ensures r == -1 || (0 <= r < |names| && names[r] == name && forall i :: 0 <= i < r ==> names[i] != name)
    ensures r == -1 <==> name !in names
  {
    if names == [] then -1
    else if names[0] == name then 0
    else
      assert forall x :: x in names <==> x == names[0] || x in names[1..];
      var rest := NameIndex(names[1..], name);
      if rest == -1 then -1 else rest + 1
  }

  /** `text.slice(from, to)` for offsets that are not negative. */
  function Slice(text: string, from: nat, to: nat): string {
    var last := if to < |text| then to else |text|;
    if from <= last then text[from..last] else ""
  }

  /** Where the section that starts at `after` ends: at the next marker, else with the text.
      `late` tells whether that marker is sought after the section's own marker only (the
      storage collector) or from the start of the text (the cluster reader). */
  function SectionEnd(names: seq<string>, late: bool, raw: string, i: int, after: nat): nat
    requires i >= -1
  {
    var end := if i + 1 < |names| then IndexOf(raw, Marker(names[i + 1]), if late then after else 0) else |raw|;
    if end == -1 then |raw| else end
  }

  /** Both variants of `section`. */
  function Section(names: seq<string>, late: bool, raw: string, name: string): string {
    SectionFrom(names, late, raw, name, IndexOf(raw, Marker(name), 0), NameIndex(names, name))
  }

  /** The section whose marker was found at `start`; the marker is the one at index `i`. */
  function SectionFrom(names: seq<string>, late: bool, raw: string, name: string, start: int, i: int): string
    requires start >= -1 && i >= -1
  {
    if start == -1 then ""
    else
      var after := start + |name| + 4;
      Trim(Slice(raw, after, SectionEnd(names, late, raw, i, after)))
  }

  function ClusterSection(raw: string, name: string): string { Section(CLUSTER_NAMES, false, raw, name) }

  function StorageSection(raw: string, name: string): string { Section(STORAGE_NAMES, true, raw, name) }

  /** `splitAdvStorageSections`. */
  method SplitAdvStorageSections(raw: string) returns (out: map<string, string>)
    ensures out.Keys == (set name | name in STORAGE_NAMES && name != "END")
    ensures forall name :: name in out ==> out[name] == StorageSection(raw, name)
  {
    out := SplitSections(STORAGE_NAMES, raw);
  }

  /** Its loop over the names. */
  method SplitSections(names: seq<string>, raw: string) returns (out: map<string, string>)
    ensures out.Keys == (set name | name in names && name != "END")
    ensures forall name :: name in out ==> out[name] == Section(names, true, raw, name)
  {
    out := map[];
    for i := 0 to |names|
      invariant out.Keys == (set name | name in names[..i] && name != "END")
      invariant forall name :: name in out ==> out[name] == Section(names, true, raw, name)
    {
      var name := names[i];
      assert names[..i + 1] == names[..i] + [name];
      if name == "END" {
        continue;
      }
      out := out[name := Section(names, true, raw, name)];
    }
    assert names[..|names|] == names;
  }

  // --- What a probe script prints -------------------------------------------------------

  datatype Frame = Frame(name: string, body: string)

  /** `echo` prints the marker and a line feed; the command prints the body. */
  function Chunk(f: Frame): string {
    Marker(f.name) + ("\n" + f.body)
  }

  function ChunkOf(): Frame -> string { (f: Frame) => Chunk(f) }

  function Flat(parts: seq<string>): string {
    if parts == [] then "" else parts[0] + Flat(parts[1..])
  }

  function Printed(frames: seq<Frame>): string {
    Flat(Map(ChunkOf(), frames))
  }

  predicate NoMarks(s: string) {
    forall i :: 0 <= i < |s| - 1 ==> !(s[i] == '%' && s[i + 1] == '%')
  }

  /** A name that can stand between the marks. */
  predicate PlainName(name: string) {
    name != "" && '%' !in name && '\n' !in name
  }

  ghost predicate PlainFrames(frames: seq<Frame>) {
    forall f :: f in frames ==> PlainName(f.name) && NoMarks(f.body)
  }

  function Start(pre: string, frames: seq<Frame>, k: nat): nat
    requires k <= |frames|
  {
    |pre| + |Printed(frames[..k])|
  }

  lemma {:induction false} FlatConcat(a: seq<string>, b: seq<string>)
    ensures Flat(a + b) == Flat(a) + Flat(b)
  {
    if a == [] {
      assert a + b == b;
    } else {
      assert (a + b)[1..] == a[1..] + b;
      FlatConcat(a[1..], b);
    }
  }

  lemma FlatOne(part: string)
    ensures Flat([part]) == part
  {
    assert Flat([part]) == part + Flat([part][1..]);
  }

  lemma FlatAround(pre: seq<string>, part: string, post: seq<string>)
    ensures Flat(pre + [part]) == Flat(pre) + part
    ensures Flat(pre + [part] + post) == Flat(pre) + part + Flat(post)
  {
    FlatConcat(pre, [part]);
    FlatConcat(pre + [part], post);
    FlatOne(part);
  }

  lemma FlatSplit(parts: seq<string>, k: nat)
    requires k < |parts|
    ensures Flat(parts[..k + 1]) == Flat(parts[..k]) + parts[k]
    ensures Flat(parts) == Flat(parts[..k]) + parts[k] + Flat(parts[k + 1..])
  {
    var pre, post := parts[..k], parts[k + 1..];
    assert parts[..k + 1] == pre + [parts[k]];
    assert parts == pre + [parts[k]] + post;
    FlatAround(pre, parts[k], post);
  }

  lemma PrintedSplit(frames: seq<Frame>, k: nat)
    requires k < |frames|
    ensures Printed(frames[..k + 1]) == Printed(frames[..k]) + Chunk(frames[k])
    ensures Printed(frames) == Printed(frames[..k]) + Chunk(frames[k]) + Printed(frames[k + 1..])
  {
    var parts := Map(ChunkOf(), frames);
    assert Map(ChunkOf(), frames[..k + 1]) == parts[..k + 1];
    assert Map(ChunkOf(), frames[..k]) == parts[..k];
    assert Map(ChunkOf(), frames[k + 1..]) == parts[k + 1..];
    FlatSplit(parts, k);
  }

  /** No mark can start in a text without marks, not even one that runs into the next marker. */
  lemma MarkNotInside(pre: string, rest: string, name: string, p: nat)
    requires NoMarks(pre) && PlainName(name) && p < |pre|
    requires rest == "" || (|rest| >= 2 && rest[0] == '%' && rest[1] == '%')
    ensures !OccursAt(pre + rest, Marker(name), p)
  {
    var text, m := pre + rest, Marker(name);
    assert m[0] == '%' && m[1] == '%' && m[2] == name[0] && name[0] in name;
    if p + |m| <= |text| {
      var at := text[p..p + |m|];
      assert at[0] == text[p] && at[1] == text[p + 1] && at[2] == text[p + 2];
    }
  }

  /** In the text of a marker line, that marker itself is the only one that can start. */
  lemma MarkOnLine(name: string, tail: string, other: string, p: nat)
    requires PlainName(name) && PlainName(other) && p < |Marker(name)|
    requires OccursAt(Marker(name) + "\n" + tail, Marker(other), p)
    ensures p == 0 && other == name
  {
    var text, m, line := Marker(name) + "\n" + tail, Marker(other), Marker(name);
    var n := |name|;
    assert forall i :: 0 <= i < |m| ==> text[p + i] == m[i];
    assert m[0] == '%' && m[1] == '%' && m[2] == other[0];
    assert other[0] in other && other[0] != '%' && other[0] != '\n';
    assert text[p] == '%' && text[p + 1] == '%' && text[p + 2] == other[0];
    assert text[n + 4] == '\n';
    assert forall i :: 2 <= i < n + 2 ==> text[i] == name[i - 2] && text[i] != '%';
    assert p == 0;
    SameName(text, name, other);
  }

  /** The end of a name is where the next mark starts. */
  lemma SameName(text: string, name: string, other: string)
    requires PlainName(name) && PlainName(other)
    requires OccursAt(text, Marker(name), 0) && OccursAt(text, Marker(other), 0)
    ensures name == other
  {
    var a, b := Marker(name), Marker(other);
    assert forall i :: 0 <= i < |a| ==> text[i] == a[i];
    assert forall i :: 0 <= i < |b| ==> text[i] == b[i];
    assert forall i :: 2 <= i < 2 + |name| ==> text[i] == name[i - 2] && text[i] != '%';
    assert forall i :: 2 <= i < 2 + |other| ==> text[i] == other[i - 2] && text[i] != '%';
    assert text[2 + |name|] == '%' && text[2 + |other|] == '%';
    assert |name| == |other|;
    assert name == text[2..2 + |name|] && other == text[2..2 + |other|];
  }

  lemma FirstPrinted(frames: seq<Frame>)
    requires frames != []
    ensures var line, body := Marker(frames[0].name), "\n" + frames[0].body;
            && Printed(frames) == line + (body + Printed(frames[1..]))
            && Printed(frames) == line + "\n" + (frames[0].body + Printed(frames[1..]))
            && |Printed(frames)| >= 2 && Printed(frames)[0] == '%' && Printed(frames)[1] == '%'
  {
    PrintedSplit(frames, 0);
    assert frames[..0] == [] && Printed([]) == "";
  }

  /** Every occurrence of a marker is the start of a frame of that name. */
  lemma {:induction false} MarkersOnlyAtFrames(pre: string, frames: seq<Frame>, name: string, p: nat)
    returns (k: nat)
    requires NoMarks(pre) && PlainFrames(frames) && PlainName(name)
    requires OccursAt(pre + Printed(frames), Marker(name), p)
    ensures k < |frames| && frames[k].name == name && p == Start(pre, frames, k)
    decreases |frames|
  {
    var printed := Printed(frames);
    if frames == [] {
      MarkNotInsideAlone(pre, name, p);
    } else {
      var f, rest := frames[0], frames[1..];
      assert f in frames;
      var line, body := Marker(f.name), "\n" + f.body;
      FirstPrinted(frames);
      if p < |pre| {
        MarkNotInside(pre, printed, name, p);
      }
      var q := p - |pre|;
      OccursShift(pre, printed, Marker(name), p);
      if q < |line| {
        MarkOnLine(f.name, f.body + Printed(rest), name, q);
        k := 0;
        assert frames[..0] == [];
      } else {
        OccursShift(line, body + Printed(rest), Marker(name), q);
        NoMarksAfterLine(f.body);
        assert forall g :: g in rest ==> g in frames;
        k := MarkersOnlyAtFrames(body, rest, name, q - |line|);
        StartOfRest(pre, frames, k);
        k := k + 1;
      }
    }
  }

  lemma StartOfRest(pre: string, frames: seq<Frame>, k: nat)
    requires k < |frames|
    ensures Start(pre, frames, k + 1)
         == |pre| + |Marker(frames[0].name)| + Start("\n" + frames[0].body, frames[1..], k)
  {
    var upTo := frames[..k + 1];
    PrintedSplit(upTo, 0);
    assert upTo[..0] == [] && Printed([]) == "";
    assert upTo[1..] == frames[1..][..k] && upTo[0] == frames[0];
  }

  lemma MarkNotInsideAlone(pre: string, name: string, p: nat)
    requires NoMarks(pre) && PlainName(name)
    ensures !OccursAt(pre + "", Marker(name), p)
  {
    if p < |pre| {
      MarkNotInside(pre, "", name, p);
    }
  }

  lemma NoMarksAfterLine(body: string)
    requires NoMarks(body)
    ensures NoMarks("\n" + body)
  {
    var s := "\n" + body;
    forall i | 0 <= i < |s| - 1 ensures !(s[i] == '%' && s[i + 1] == '%') {
      if i > 0 {
        assert s[i] == body[i - 1] && s[i + 1] == body[i];
      }
    }
  }

  lemma OccursShift(a: string, b: string, m: string, p: nat)
    requires p >= |a|
    ensures OccursAt(a + b, m, p) <==> OccursAt(b, m, p - |a|)
  {
    if p + |m| <= |a + b| {
      assert (a + b)[p..p + |m|] == b[p - |a|..p - |a| + |m|];
    }
  }

  lemma Located(a: string, m: string, b: string, c: string)
    ensures var t := a + (m + b) + c;
            OccursAt(t, m, |a|) && |a| + |m| + |b| <= |t| && t[|a| + |m|..|a| + |m| + |b|] == b
  {
    var t := a + (m + b) + c;
    assert t[|a|..|a| + |m|] == m;
  }

  lemma InFront(a: string, b: string, c: string, d: string)
    ensures a + (b + c + d) == (a + b) + c + d
  {
  }

  lemma FrameAt(pre: string, frames: seq<Frame>, k: nat)
    requires k < |frames|
    ensures var raw, start := pre + Printed(frames), Start(pre, frames, k);
            && OccursAt(raw, Marker(frames[k].name), start)
            && Start(pre, frames, k + 1) == start + |Marker(frames[k].name)| + 1 + |frames[k].body|
            && Start(pre, frames, k + 1) <= |raw|
            && raw[start + |Marker(frames[k].name)|..Start(pre, frames, k + 1)] == "\n" + frames[k].body
  {
    var f, before, after := frames[k], Printed(frames[..k]), Printed(frames[k + 1..]);
    PrintedSplit(frames, k);
    Located(pre + before, Marker(f.name), "\n" + f.body, after);
    InFront(pre, before, Chunk(f), after);
  }

  /** The frames are those of the first names, in order. */
  ghost predicate FramesOf(names: seq<string>, frames: seq<Frame>) {
    && NoDup(names) && (forall n :: n in names ==> PlainName(n))
    && |frames| <= |names| && PlainFrames(frames)
    && forall i :: 0 <= i < |frames| ==> frames[i].name == names[i]
  }

  /** A marker is found at its frame, or not at all when the output stopped before it. */
  lemma MarkerFound(names: seq<string>, pre: string, frames: seq<Frame>, k: nat, from: nat)
    requires FramesOf(names, frames) && NoMarks(pre) && k < |names|
    requires k < |frames| ==> from <= Start(pre, frames, k)
    ensures IndexOf(pre + Printed(frames), Marker(names[k]), from)
         == if k < |frames| then Start(pre, frames, k) else -1
  {
    var raw, m := pre + Printed(frames), Marker(names[k]);
    var r := IndexOf(raw, m, from);
    if k < |frames| {
      FrameAt(pre, frames, k);
    }
    if r != -1 {
      var j := MarkersOnlyAtFrames(pre, frames, names[k], r);
      assert j == k;
    }
  }

  lemma TrimLine(body: string)
    ensures Trim("\n" + body) == Trim(body)
  {
    assert ("\n" + body)[1..] == body;
  }

  lemma IndexOfName(names: seq<string>, k: nat)
    requires NoDup(names) && k < |names|
    ensures NameIndex(names, names[k]) == k
  {
  }

  /** Where a printed section ends. */
  lemma EndFound(names: seq<string>, late: bool, pre: string, frames: seq<Frame>, k: nat)
    requires FramesOf(names, frames) && NoMarks(pre) && k < |frames|
    ensures SectionEnd(names, late, pre + Printed(frames), k, Start(pre, frames, k) + |Marker(names[k])|)
         == Start(pre, frames, k + 1)
  {
    FrameAt(pre, frames, k);
    if k + 1 < |names| {
      MarkerFound(names, pre, frames, k + 1, if late then Start(pre, frames, k) + |Marker(names[k])| else 0);
    }
    if k + 1 == |frames| {
      assert frames[..k + 1] == frames;
    }
  }

  /** A section with known bounds. */
  lemma SectionBetween(names: seq<string>, late: bool, raw: string, k: nat, start: nat, end: nat, text: string)
    requires NoDup(names) && k < |names|
    requires IndexOf(raw, Marker(names[k]), 0) == start
    requires SectionEnd(names, late, raw, k, start + |names[k]| + 4) == end
    requires Slice(raw, start + |names[k]| + 4, end) == text
    ensures Section(names, late, raw, names[k]) == Trim(text)
  {
    IndexOfName(names, k);
  }

  lemma SectionPrinted(names: seq<string>, late: bool, raw: string, pre: string, frames: seq<Frame>, k: nat)
    requires FramesOf(names, frames) && NoMarks(pre) && k < |frames| && raw == pre + Printed(frames)
    ensures Section(names, late, raw, names[k]) == Trim("\n" + frames[k].body)
  {
    var start, end := Start(pre, frames, k), Start(pre, frames, k + 1);
    MarkerFound(names, pre, frames, k, 0);
    EndFound(names, late, pre, frames, k);
    SliceOfFrame(raw, pre, frames, k, start + |Marker(names[k])|);
    SectionBetween(names, late, raw, k, start, end, "\n" + frames[k].body);
  }

  lemma SectionUnprinted(names: seq<string>, late: bool, raw: string, pre: string, frames: seq<Frame>, k: nat)
    requires FramesOf(names, frames) && NoMarks(pre) && |frames| <= k < |names| && raw == pre + Printed(frames)
    ensures Section(names, late, raw, names[k]) == ""
  {
    MarkerFound(names, pre, frames, k, 0);
  }

  /** Splitting undoes framing, in both variants, also when the output breaks off after some
      section: a printed section gives its trimmed body and any other one is empty. */
  lemma SectionOfFrames(names: seq<string>, late: bool, pre: string, frames: seq<Frame>, k: nat)
    requires FramesOf(names, frames) && NoMarks(pre) && k < |names|
    ensures Section(names, late, pre + Printed(frames), names[k])
         == if k < |frames| then Trim(frames[k].body) else ""
  {
    if k < |frames| {
      SectionPrinted(names, late, pre + Printed(frames), pre, frames, k);
      TrimLine(frames[k].body);
    } else {
      SectionUnprinted(names, late, pre + Printed(frames), pre, frames, k);
    }
  }

  lemma SliceOfFrame(raw: string, pre: string, frames: seq<Frame>, k: nat, after: nat)
    requires k < |frames| && raw == pre + Printed(frames) && after == Start(pre, frames, k) + |frames[k].name| + 4
    ensures Slice(raw, after, Start(pre, frames, k + 1)) == "\n" + frames[k].body
  {
    FrameAt(pre, frames, k);
    assert |Marker(frames[k].name)| == |frames[k].name| + 4;
  }

  lemma ClusterNamesPlain()
    ensures NoDup(CLUSTER_NAMES) && forall n :: n in CLUSTER_NAMES ==> PlainName(n)
  {
  }

  lemma StorageNamesDistinct()
    ensures NoDup(STORAGE_NAMES)
  {
    forall i, j | 0 <= i < j < |STORAGE_NAMES| ensures STORAGE_NAMES[i] != STORAGE_NAMES[j] {
      var a, b := STORAGE_NAMES[i], STORAGE_NAMES[j];
      assert |a| != |b| || a[0] != b[0] || a[|a| - 1] != b[|b| - 1];
    }
  }

  lemma StorageNamesPlain()
    ensures forall n :: n in STORAGE_NAMES ==> PlainName(n)
  {
    forall i | 0 <= i < |STORAGE_NAMES| ensures PlainName(STORAGE_NAMES[i]) {
      if i < 5 {
        assert STORAGE_NAMES[i] in ["TOOLS", "RCCONF", "SVCSTATUS", "DRBD_JSON", "DRBD_PROC"];
      } else if i < 10 {
        assert STORAGE_NAMES[i] in ["DRBD_RCCONF", "DRBD_SVC", "MULTIPATH", "ZPOOL", "ZFSLIST"];
      } else if i < 15 {
        assert STORAGE_NAMES[i] in ["MHVTL", "BCACHE", "DMCACHE", "LVMCACHE", "RBD"];
      } else {
        assert STORAGE_NAMES[i] in ["RBDMAP", "DEPRECATED", "LSBLK_ADV", "END"];
      }
    }
  }

  /** The cluster probe: every section of its output is read back. */
  lemma ClusterProbeReadBack(pre: string, frames: seq<Frame>, k: nat)
    requires NoMarks(pre) && |frames| == |CLUSTER_NAMES| && k < |frames|
    requires forall i :: 0 <= i < |frames| ==> frames[i].name == CLUSTER_NAMES[i] && NoMarks(frames[i].body)
    ensures ClusterSection(pre + Printed(frames), CLUSTER_NAMES[k]) == Trim(frames[k].body)
  {
    ClusterNamesPlain();
    SectionOfFrames(CLUSTER_NAMES, false, pre, frames, k);
  }

  /** The storage probe: every section of its output is read back. */
  lemma StorageProbeReadBack(pre: string, frames: seq<Frame>, k: nat)
    requires NoMarks(pre) && |frames| == |STORAGE_NAMES| && k < |frames|
    requires forall i :: 0 <= i < |frames| ==> frames[i].name == STORAGE_NAMES[i] && NoMarks(frames[i].body)
    ensures StorageSection(pre + Printed(frames), STORAGE_NAMES[k]) == Trim(frames[k].body)
  {
    StorageNamesPlain();
    StorageNamesDistinct();
    SectionOfFrames(STORAGE_NAMES, true, pre, frames, k);
  }

  lemma SectionSlice(names: seq<string>, late: bool, raw: string, k: nat, start: nat)
    requires NoDup(names) && k < |names| && IndexOf(raw, Marker(names[k]), 0) == start
    ensures var after := start + |Marker(names[k])|;
            Section(names, late, raw, names[k]) == Trim(Slice(raw, after, SectionEnd(names, late, raw, k, after)))
  {
    IndexOfName(names, k);
    SectionFound(names, late, raw, names[k], start, k);
    SectionAt(names, late, raw, names[k], start, k);
  }

  lemma SectionFound(names: seq<string>, late: bool, raw: string, name: string, start: nat, i: nat)
    requires IndexOf(raw, Marker(name), 0) == start && NameIndex(names, name) == i
    ensures Section(names, late, raw, name) == SectionFrom(names, late, raw, name, start, i)
  {
  }

  lemma SectionAt(names: seq<string>, late: bool, raw: string, name: string, start: nat, i: nat)
    ensures var after := start + |Marker(name)|;
            SectionFrom(names, late, raw, name, start, i)
              == Trim(Slice(raw, after, SectionEnd(names, late, raw, i, after)))
  {
  }

  lemma SameEnd(names: seq<string>, raw: string, k: nat, after: nat)
    requires k + 1 < |names|
    requires var next := IndexOf(raw, Marker(names[k + 1]), 0); next == -1 || next >= after
    ensures SectionEnd(names, false, raw, k, after) == SectionEnd(names, true, raw, k, after)
  {
    IndexOfFrom(raw, Marker(names[k + 1]), after);
  }

  lemma SameSlices(names: seq<string>, raw: string, k: nat, start: nat)
    requires NoDup(names) && k < |names| && IndexOf(raw, Marker(names[k]), 0) == start
    requires var after := start + |Marker(names[k])|;
             SectionEnd(names, false, raw, k, after) == SectionEnd(names, true, raw, k, after)
    ensures Section(names, false, raw, names[k]) == Section(names, true, raw, names[k])
  {
    SectionSlice(names, false, raw, k, start);
    SectionSlice(names, true, raw, k, start);
  }

  /** Where the next marker does not occur before the section, the variants agree. */
  lemma VariantsSame(names: seq<string>, raw: string, k: nat, start: nat, next: int)
    requires NoDup(names) && k + 1 < |names|
    requires IndexOf(raw, Marker(names[k]), 0) == start && IndexOf(raw, Marker(names[k + 1]), 0) == next
    requires next == -1 || next >= start + |Marker(names[k])|
    ensures Section(names, false, raw, names[k]) == Section(names, true, raw, names[k])
  {
    SameEnd(names, raw, k, start + |Marker(names[k])|);
    SameSlices(names, raw, k, start);
  }

  /** Where it does, the early search yields nothing. */
  lemma EarlyEmpty(names: seq<string>, raw: string, k: nat, start: nat, next: nat)
    requires NoDup(names) && k + 1 < |names|
    requires IndexOf(raw, Marker(names[k]), 0) == start && IndexOf(raw, Marker(names[k + 1]), 0) == next
    requires next < start + |Marker(names[k])|
    ensures Section(names, false, raw, names[k]) == ""
  {
    SectionSlice(names, false, raw, k, start);
    EmptySlice(raw, start + |Marker(names[k])|, next);
  }

  /** On any text the two variants differ exactly when the next marker also occurs before the
      section and the late search finds visible text: the early search then yields nothing. */
  lemma VariantsDiffer(names: seq<string>, raw: string, k: nat)
    requires NoDup(names) && k + 1 < |names|
    ensures var start := IndexOf(raw, Marker(names[k]), 0);
            var next := IndexOf(raw, Marker(names[k + 1]), 0);
            Section(names, false, raw, names[k]) != Section(names, true, raw, names[k]) <==>
              0 <= next < start + |Marker(names[k])| && start != -1 && Section(names, true, raw, names[k]) != ""
  {
    var start, next := IndexOf(raw, Marker(names[k]), 0), IndexOf(raw, Marker(names[k + 1]), 0);
    if start != -1 {
      if 0 <= next < start + |Marker(names[k])| {
        EarlyEmpty(names, raw, k, start, next);
      } else {
        VariantsSame(names, raw, k, start, next);
      }
    }
  }

  lemma EmptySlice(text: string, from: nat, to: nat)
    requires to < from
    ensures Trim(Slice(text, from, to)) == ""
  {
  }

  /** Searching from a later point changes nothing unless the first occurrence is earlier. */
  lemma IndexOfFrom(text: string, m: string, from: nat)
    ensures IndexOf(text, m, 0) == -1 ==> IndexOf(text, m, from) == -1
    ensures IndexOf(text, m, 0) >= from ==> IndexOf(text, m, from) == IndexOf(text, m, 0)
  {
  }
}
