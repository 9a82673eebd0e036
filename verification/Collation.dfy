/** Sorting with an arbitrary total order (`utils/locale-sort.ts`) and `join('|')`. */
module Collation {
  import opened Sequences

  /** What the collation of a locale is taken to be: some total order. */
  ghost predicate TotalOrder<T(!new)>(le: (T, T) -> bool) {
    && (forall x, y :: le(x, y) || le(y, x))
    && (forall x, y :: le(x, y) && le(y, x) ==> x == y)
    && (forall x, y, z :: le(x, y) && le(y, z) ==> le(x, z))
  }

  /** An order that may rank different values the same. */
  ghost predicate TotalPreorder<T(!new)>(le: (T, T) -> bool) {
    && (forall x, y :: le(x, y) || le(y, x))
    && (forall x, y, z :: le(x, y) && le(y, z) ==> le(x, z))
  }

  ghost predicate Sorted<T>(le: (T, T) -> bool, s: seq<T>) {
    forall i, j :: 0 <= i < j < |s| ==> le(s[i], s[j])
  }

  function Insert<T>(le: (T, T) -> bool, x: T, s: seq<T>): (r: seq<T>)
    ensures multiset(r) == multiset(s) + multiset{x}
  {
    if s == [] then [x]
    else if le(x, s[0]) then [x] + s
    else
      assert s == [s[0]] + s[1..];
      [s[0]] + Insert(le, x, s[1..])
  }

  /** `s.sort(le)`: stable, and a permutation of `s` whatever `le` is. */
  function Sort<T>(le: (T, T) -> bool, s: seq<T>): (r: seq<T>)
    ensures multiset(r) == multiset(s)
    ensures |r| == |s|
  {
    if s == [] then []
    else
      assert s == [s[0]] + s[1..];
      Insert(le, s[0], Sort(le, s[1..]))
  }

  lemma SortElements<T>(le: (T, T) -> bool, s: seq<T>)
    ensures forall x :: x in Sort(le, s) <==> x in s
  {
    SameMultisetSameElements(Sort(le, s), s);
  }

  lemma {:induction false} InsertSorted<T(!new)>(le: (T, T) -> bool, x: T, s: seq<T>)
    requires TotalPreorder(le) && Sorted(le, s)
    ensures Sorted(le, Insert(le, x, s))
  {
    if s == [] {
    } else if le(x, s[0]) {
    } else {
      InsertSorted(le, x, s[1..]);
      var rest := Insert(le, x, s[1..]);
      SameMultisetSameElements(rest, s[1..] + [x]);
      forall y | y in rest ensures le(s[0], y) {
        assert y in s[1..] + [x];
      }
    }
  }

  lemma {:induction false} SortSorted<T(!new)>(le: (T, T) -> bool, s: seq<T>)
    requires TotalPreorder(le)
    ensures Sorted(le, Sort(le, s))
  {
    if s == [] {
    } else {
      SortSorted(le, s[1..]);
      InsertSorted(le, s[0], Sort(le, s[1..]));
    }
  }

  lemma {:induction false} SortedUnique<T(!new)>(le: (T, T) -> bool, a: seq<T>, b: seq<T>)
    requires TotalOrder(le) && Sorted(le, a) && Sorted(le, b)
    requires multiset(a) == multiset(b)
    ensures a == b
  {
    SameMultisetSameElements(a, b);
    if a == [] {
    } else {
      assert a[0] in b && b[0] in a;
      assert le(a[0], b[0]) && le(b[0], a[0]);
      assert a == [a[0]] + a[1..] && b == [b[0]] + b[1..];
      assert multiset(a[1..]) == multiset(a) - multiset{a[0]};
      assert multiset(b[1..]) == multiset(b) - multiset{b[0]};
      SortedUnique(le, a[1..], b[1..]);
    }
  }

  /** Sorting forgets the order of its input: it is the one sorted permutation. */
  lemma SortCanonical<T(!new)>(le: (T, T) -> bool, a: seq<T>, b: seq<T>)
    requires TotalOrder(le)
    requires multiset(a) == multiset(b)
    ensures Sort(le, a) == Sort(le, b)
  {
    SortSorted(le, a);
    SortSorted(le, b);
    SortedUnique(le, Sort(le, a), Sort(le, b));
  }

  /** `[...names].sort(le)` of two sets with the same members. */
  lemma SortedSetCanonical<T(!new)>(le: (T, T) -> bool, a: seq<T>, b: seq<T>)
    requires TotalOrder(le) && NoDup(a) && NoDup(b)
    requires forall x :: x in a <==> x in b
    ensures Sort(le, a) == Sort(le, b)
  {
    NoDupSameElements(a, b);
    SortCanonical(le, a, b);
  }

  lemma {:induction false} SingleValue(s: seq<string>, x: string)
    requires forall i :: 0 <= i < |s| ==> s[i] == x
    ensures multiset(s)[x] == |s|
  {
    if s == [] {
    } else {
      assert s == s[..|s| - 1] + [s[|s| - 1]];
      SingleValue(s[..|s| - 1], x);
    }
  }

  /** Sorting a set with one member. */
  lemma OnlyName(le: (string, string) -> bool, all: seq<string>, x: string)
    requires x in all && forall y :: y in all ==> y == x
    ensures Sort(le, Dedup(all)) == [x]
  {
    var d := Dedup(all);
    assert x in d;
    forall i | 0 <= i < |d| ensures d[i] == x {
      assert d[i] in d;
    }
    NoDupMultiplicity(d, x);
    SingleValue(d, x);
    SortElements(le, d);
  }

  // --- join('|') ----------------------------------------------------------------------

  const BAR: char := '|'

  function Join(names: seq<string>): (r: string) {
    if |names| == 0 then ""
    else if |names| == 1 then names[0]
    else names[0] + [BAR] + Join(names[1..])
  }

  /** The characters a list takes when each of its names is followed by one separator. */
  function Weight(names: seq<string>): nat {
    if names == [] then 0 else |names[0]| + 1 + Weight(names[1..])
  }

  lemma {:induction false} JoinLength(names: seq<string>)
    ensures |Join(names)| == if names == [] then 0 else Weight(names) - 1
  {
    if |names| < 2 {
    } else {
      JoinLength(names[1..]);
    }
  }

  lemma {:induction false} WeightInsert(le: (string, string) -> bool, x: string, s: seq<string>)
    ensures Weight(Insert(le, x, s)) == Weight(s) + |x| + 1
  {
    if s == [] {
    } else if le(x, s[0]) {
    } else {
      WeightInsert(le, x, s[1..]);
    }
  }

  lemma {:induction false} WeightSort(le: (string, string) -> bool, s: seq<string>)
    ensures Weight(Sort(le, s)) == Weight(s)
  {
    if s == [] {
    } else {
      WeightSort(le, s[1..]);
      WeightInsert(le, s[0], Sort(le, s[1..]));
    }
  }

  lemma {:induction false} WeightAround(pre: seq<string>, x: string, post: seq<string>)
    ensures Weight(pre + [x] + post) == Weight(pre + post) + |x| + 1
  {
    if pre == [] {
      assert pre + [x] + post == [x] + post && pre + post == post;
    } else {
      assert (pre + [x] + post)[1..] == pre[1..] + [x] + post;
      assert (pre + post)[1..] == pre[1..] + post;
      WeightAround(pre[1..], x, post);
    }
  }

  /** A list that misses a name of another is lighter. */
  lemma {:induction false} WeightOfSubset(a: seq<string>, b: seq<string>, missing: string)
    requires NoDup(a) && NoDup(b)
    requires forall x :: x in a ==> x in b
    requires missing in b && missing !in a
    ensures Weight(a) < Weight(b)
    decreases |a|
  {
    if a == [] {
    } else {
      assert a[0] in b;
      var k :| 0 <= k < |b| && b[k] == a[0];
      var pre, post := b[..k], b[k + 1..];
      assert b == pre + [a[0]] + post;
      WeightAround(pre, a[0], post);
      forall x | x in a[1..] ensures x in pre + post {
        assert x in a;
      }
      WeightOfSubset(a[1..], pre + post, missing);
    }
  }

  /** Comparing the joined sorted names of a part with those of the whole tells whether the part is
      the whole, whatever the names contain, with one exception: no name looks like one empty name. */
  lemma JoinedPart(le: (string, string) -> bool, part: seq<string>, whole: seq<string>)
    requires TotalOrder(le) && NoDup(part) && NoDup(whole)
    requires forall x :: x in part ==> x in whole
    ensures Join(Sort(le, part)) == Join(Sort(le, whole))
       <==> (forall x :: x in whole ==> x in part) || (part == [] && whole == [""])
  {
    if x :| x in whole && x !in part {
      WeightOfSubset(part, whole, x);
      JoinLength(Sort(le, part));
      JoinLength(Sort(le, whole));
      WeightSort(le, part);
      WeightSort(le, whole);
      if part == [] {
        JoinedNothing(le, whole);
      }
    } else {
      SortedSetCanonical(le, part, whole);
    }
  }

  lemma JoinedNothing(le: (string, string) -> bool, whole: seq<string>)
    requires whole != []
    ensures Join(Sort(le, [])) == Join(Sort(le, whole)) <==> whole == [""]
  {
    JoinLength(Sort(le, whole));
    WeightSort(le, whole);
    assert Weight(whole) == |whole[0]| + 1 + Weight(whole[1..]);
    assert Weight(whole) == 1 <==> whole == [""] by {
      if Weight(whole) == 1 {
        assert whole[1..] == [];
        assert whole == [whole[0]] + whole[1..];
      }
    }
  }
}
