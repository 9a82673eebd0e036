/** Device-mapper names and paths of logical volumes, `utils/lvm-lv-path.ts`. */
module LvmPath {
  import opened Sequences
  import opened Text

  /** `name.replace(/-/g, '--')`. */
  function Segment(name: string): string {
    if name == "" then ""
    else (if name[0] == '-' then "--" else [name[0]]) + Segment(name[1..])
  }

  function DeviceName(vg: string, lv: string): string {
    Segment(vg) + "-" + Segment(lv)
  }

  function DevicePath(vg: string, lv: string): string {
    "/dev/mapper/" + DeviceName(vg, lv)
  }

  // --- Reading a name back --------------------------------------------------------------

  /** Undoes `Segment`; a lone hyphen stands for itself. */
  function Unsegment(s: string): string {
    if s == "" then ""
    else if s[0] == '-' && |s| >= 2 && s[1] == '-' then "-" + Unsegment(s[2..])
    else [s[0]] + Unsegment(s[1..])
  }

  /** Reads from the left up to the first hyphen that is not doubled. */
  function Decode(s: string): Option<(string, string)> {
    if s == "" then None
    else if s[0] != '-' then Prepend(s[0], Decode(s[1..]))
    else if |s| >= 2 && s[1] == '-' then Prepend('-', Decode(s[2..]))
    else Some(("", Unsegment(s[1..])))
  }

  function Prepend(c: char, r: Option<(string, string)>): Option<(string, string)> {
    match r
    case None => None
    case Some((vg, lv)) => Some(([c] + vg, lv))
  }

  lemma {:induction false} UnsegmentSegment(name: string)
    ensures Unsegment(Segment(name)) == name
  {
    if name == "" {
    } else {
      UnsegmentSegment(name[1..]);
      var rest := Segment(name[1..]);
      if name[0] == '-' {
        assert Segment(name) == "--" + rest;
        assert Segment(name)[2..] == rest;
      } else {
        assert Segment(name)[1..] == rest;
      }
    }
  }

  lemma SegmentHead(name: string)
    ensures Segment(name) == "" <==> name == ""
    ensures name != "" ==> Segment(name)[0] == name[0]
    ensures name != "" && name[0] == '-' ==> |Segment(name)| >= 2 && Segment(name)[1] == '-'
  {
  }

  /** One character of the group's name is read back, whatever follows its segment. */
  lemma DecodeOne(name: string, rest: string)
    requires name != ""
    ensures Decode(Segment(name) + rest) == Prepend(name[0], Decode(Segment(name[1..]) + rest))
  {
    var text, inner := Segment(name) + rest, Segment(name[1..]) + rest;
    if name[0] == '-' {
      assert text == "--" + inner;
      assert text[2..] == inner;
    } else {
      assert text == [name[0]] + inner;
      assert text[1..] == inner;
    }
  }

  function PrependAll(vg: string, r: Option<(string, string)>): Option<(string, string)> {
    match r
    case None => None
    case Some((v, l)) => Some((vg + v, l))
  }

  lemma PrependMore(vg: string, r: Option<(string, string)>)
    requires vg != ""
    ensures Prepend(vg[0], PrependAll(vg[1..], r)) == PrependAll(vg, r)
  {
    match r
    case None =>
    case Some((v, l)) => assert [vg[0]] + (vg[1..] + v) == vg + v;
  }

  /** What follows the group's segment decides where the decoder stops. */
  lemma {:induction false} DecodePast(vg: string, rest: string)
    ensures Decode(Segment(vg) + rest) == PrependAll(vg, Decode(rest))
  {
    if vg == "" {
      assert Segment(vg) + rest == rest;
      match Decode(rest)
      case None =>
      case Some((v, l)) => assert vg + v == v;
    } else {
      DecodePast(vg[1..], rest);
      DecodeOne(vg, rest);
      PrependMore(vg, Decode(rest));
    }
  }

  predicate LeadingHyphen(name: string) {
    name != "" && name[0] == '-'
  }

  /** The name reads back as the pair it was made from exactly when the volume's name does not
      start with a hyphen. */
  lemma DecodeDeviceName(vg: string, lv: string)
    ensures Decode(DeviceName(vg, lv)) == Some((vg, lv)) <==> !LeadingHyphen(lv)
  {
    var rest := "-" + Segment(lv);
    assert DeviceName(vg, lv) == Segment(vg) + rest;
    DecodePast(vg, rest);
    SegmentHead(lv);
    UnsegmentSegment(lv);
    assert rest[1..] == Segment(lv);
    if LeadingHyphen(lv) {
      match Decode(rest[2..])
      case None =>
      case Some((v, l)) =>
        assert |vg + (['-'] + v)| > |vg|;
    } else {
      assert vg + "" == vg;
    }
  }

  /** On such names the device-mapper name identifies the volume. */
  lemma DeviceNameInjective(vg1: string, lv1: string, vg2: string, lv2: string)
    requires !LeadingHyphen(lv1) && !LeadingHyphen(lv2)
    requires DeviceName(vg1, lv1) == DeviceName(vg2, lv2)
    ensures vg1 == vg2 && lv1 == lv2
  {
    DecodeDeviceName(vg1, lv1);
    DecodeDeviceName(vg2, lv2);
  }

  lemma {:induction false} SegmentAppendHyphen(name: string)
    ensures Segment(name + "-") == Segment(name) + "--"
  {
    if name == "" {
      assert Segment("-") == "--" + Segment("-"[1..]);
      assert name + "-" == "-" && Segment(name) + "--" == "--";
    } else {
      assert (name + "-")[1..] == name[1..] + "-";
      SegmentAppendHyphen(name[1..]);
    }
  }

  /** Every name with a leading hyphen collides: the hyphen can move to the group. */
  lemma LeadingHyphenCollides(vg: string, lv: string)
    ensures DeviceName(vg, "-" + lv) == DeviceName(vg + "-", lv)
  {
    SegmentAppendHyphen(vg);
    assert ("-" + lv)[1..] == lv;
    assert Segment("-" + lv) == "--" + Segment(lv);
    assert Segment(vg) + "-" + ("--" + Segment(lv)) == (Segment(vg) + "--") + "-" + Segment(lv);
  }

  // --- Candidate paths ------------------------------------------------------------------

  function AddPath(out: seq<string>, p: Option<string>): (r: seq<string>) {
    if p.None? then out
    else
      var t := Trim(p.value);
      if t != "" && StartsWith(t, "/") && t !in out then out + [t] else out
  }

  function LegacyPath(vg: string, lv: string): string {
    "/dev/" + vg + "/" + lv
  }

  function Candidates(vg: string, lv: string, lvPath: Option<string>, lvDmPath: Option<string>): seq<string> {
    AddPath(AddPath(AddPath(AddPath([], lvPath), lvDmPath), Some(DevicePath(vg, lv))), Some(LegacyPath(vg, lv)))
  }

  /** The closure `add` over the list `out`. */
  method Add(out: seq<string>, p: Option<string>) returns (r: seq<string>)
    ensures r == AddPath(out, p)
  {
    r := out;
    if p.Some? {
      var t := Trim(p.value);
      if t != "" && t[0] == '/' && t !in out {
        r := r + [t];
      }
    }
  }

  method BuildLvPathCandidates(vg: string, lv: string, lvPath: Option<string>, lvDmPath: Option<string>)
    returns (out: seq<string>)
    ensures out == Candidates(vg, lv, lvPath, lvDmPath)
  {
    out := Add([], lvPath);
    out := Add(out, lvDmPath);
    out := Add(out, Some(DevicePath(vg, lv)));
    out := Add(out, Some(LegacyPath(vg, lv)));
  }

  function Trimmed(p: Option<string>): string {
    if p.None? then "" else Trim(p.value)
  }

  function IsMapperPath(): string -> bool { (p: string) => StartsWith(p, "/dev/mapper/") }

  function BackingPath(vg: string, lv: string, lvPath: Option<string>, lvDmPath: Option<string>): string {
    var candidates := Candidates(vg, lv, lvPath, lvDmPath);
    if StartsWith(Trimmed(lvDmPath), "/dev/") then Trimmed(lvDmPath)
    else if StartsWith(Trimmed(lvPath), "/dev/mapper/") then Trimmed(lvPath)
    else if StartsWith(Trimmed(lvPath), "/dev/") then Trimmed(lvPath)
    else
      match Find(IsMapperPath(), candidates)
      case Some(p) => p
      case None => if candidates != [] then candidates[|candidates| - 1] else DevicePath(vg, lv)
  }

  lemma AddPathKeeps(out: seq<string>, p: Option<string>)
    requires NoDup(out) && forall x :: x in out ==> StartsWith(x, "/")
    ensures NoDup(AddPath(out, p)) && forall x :: x in AddPath(out, p) ==> StartsWith(x, "/")
    ensures forall x :: x in out ==> x in AddPath(out, p)
    ensures p.Some? && StartsWith(Trim(p.value), "/") ==> Trim(p.value) in AddPath(out, p)
  {
  }

  /** The mapper path survives trimming up to its directory, since a hyphen is not white space. */
  lemma TrimmedMapperPath(vg: string, lv: string)
    ensures StartsWith(Trim(DevicePath(vg, lv)), "/dev/mapper/")
    ensures StartsWith(Trim(DevicePath(vg, lv)), "/")
  {
    var path := DevicePath(vg, lv);
    assert path[..12] == "/dev/mapper/" && path[0] == '/';
    assert TrimStart(path) == path;
    TrimEndKeepsPrefix(path, "/dev/mapper/");
    var t := Trim(path);
    assert t[..1] == t[..12][..1] == "/";
  }

  /** The candidates are distinct absolute paths, the chosen path is one of them and a device,
      and a device reported by device-mapper is preferred. */
  lemma BackingPathIsCandidate(vg: string, lv: string, lvPath: Option<string>, lvDmPath: Option<string>)
    ensures var candidates, path := Candidates(vg, lv, lvPath, lvDmPath), BackingPath(vg, lv, lvPath, lvDmPath);
            && NoDup(candidates)
            && (forall x :: x in candidates ==> StartsWith(x, "/"))
            && path in candidates && StartsWith(path, "/dev/")
            && (!StartsWith(Trimmed(lvDmPath), "/dev/") && !StartsWith(Trimmed(lvPath), "/dev/")
                ==> StartsWith(path, "/dev/mapper/"))
  {
    var c1 := AddPath([], lvPath);
    var c2 := AddPath(c1, lvDmPath);
    var c3 := AddPath(c2, Some(DevicePath(vg, lv)));
    AddPathKeeps([], lvPath);
    AddPathKeeps(c1, lvDmPath);
    AddPathKeeps(c2, Some(DevicePath(vg, lv)));
    AddPathKeeps(c3, Some(LegacyPath(vg, lv)));
    TrimmedMapperPath(vg, lv);
    var candidates := Candidates(vg, lv, lvPath, lvDmPath);
    assert Trim(DevicePath(vg, lv)) in candidates;
    assert IsMapperPath()(Trim(DevicePath(vg, lv)));
    DevPrefix(Trimmed(lvDmPath));
    DevPrefix(Trimmed(lvPath));
    DevPrefix(BackingPath(vg, lv, lvPath, lvDmPath));
  }

  lemma DevPrefix(p: string)
    ensures StartsWith(p, "/dev/") ==> StartsWith(p, "/")
    ensures StartsWith(p, "/dev/mapper/") ==> StartsWith(p, "/dev/")
  {
    if StartsWith(p, "/dev/") {
      assert p[..1] == p[..5][..1] == "/";
    }
    if StartsWith(p, "/dev/mapper/") {
      assert p[..5] == p[..12][..5] == "/dev/";
    }
  }
}
