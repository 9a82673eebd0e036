/** Optional values, results, and the order-preserving sequence operations the sources
    take from arrays, sets and maps of the language runtime. */
module Sequences {

  datatype Option<+T> = None | Some(value: T)

  datatype Result<+T, +E> = Ok(value: T) | Err(error: E)

  /** The elements of a sequence. */
  function Elems<T>(s: seq<T>): (r: set<T>) {
    set x | x in s
  }

  /** Array `filter`. */
  function Filter<T(!new)>(p: T -> bool, s: seq<T>): (r: seq<T>)
    ensures forall x :: x in r <==> x in s && p(x)
    ensures |r| <= |s|
  {
    if s == [] then []
    else
      var init := Filter(p, s[..|s| - 1]);
      if p(s[|s| - 1]) then init + [s[|s| - 1]] else init
  }

  /** Array `map`. */
  function Map<A, B>(f: A -> B, s: seq<A>): (r: seq<B>)
    ensures |r| == |s|
    ensures forall i :: 0 <= i < |s| ==> r[i] == f(s[i])
  {
    if s == [] then [] else Map(f, s[..|s| - 1]) + [f(s[|s| - 1])]
  }

  /** What a loop that appends `f(x)` for every `x` of `s` has appended at its end. */
  function FlatMap<A, B>(f: A -> seq<B>, s: seq<A>): (r: seq<B>) {
    if s == [] then [] else FlatMap(f, s[..|s| - 1]) + f(s[|s| - 1])
  }

  /** One iteration of such a loop. */
  lemma FlatMapStep<A, B>(f: A -> seq<B>, s: seq<A>, i: nat)
    requires i < |s|
    ensures FlatMap(f, s[..i + 1]) == FlatMap(f, s[..i]) + f(s[i])
  {
    assert s[..i + 1][..i] == s[..i];
  }

  lemma {:induction false} FlatMapMember<A, B>(f: A -> seq<B>, s: seq<A>, y: B)
    ensures y in FlatMap(f, s) <==> exists x :: x in s && y in f(x)
  {
    if s == [] {
    } else {
      var init, last := s[..|s| - 1], s[|s| - 1];
      FlatMapMember(f, init, y);
      assert s == init + [last];
      assert y in FlatMap(f, s) <==> y in FlatMap(f, init) || y in f(last);
      if y in f(last) {
        assert last in s;
      }
    }
  }

  /** A loop appends nothing exactly when no iteration does. */
  lemma {:induction false} FlatMapEmpty<A(!new), B>(f: A -> seq<B>, s: seq<A>)
    ensures FlatMap(f, s) == [] <==> forall x :: x in s ==> f(x) == []
  {
    if s == [] {
    } else {
      FlatMapEmpty(f, s[..|s| - 1]);
      assert s == s[..|s| - 1] + [s[|s| - 1]];
    }
  }

  lemma AppendAssociative<T>(a: seq<T>, b: seq<T>, c: seq<T>)
    ensures (a + b) + c == a + (b + c)
  {
  }

  /** Array `find`. */
  function Find<T(!new)>(p: T -> bool, s: seq<T>): (r: Option<T>)
    ensures r.Some? ==> r.value in s && p(r.value)
    ensures r.None? <==> forall x :: x in s ==> !p(x)
  {
    if s == [] then None
    else if p(s[0]) then Some(s[0])
    else
      assert forall x :: x in s <==> x == s[0] || x in s[1..];
      Find(p, s[1..])
  }

  /** `Find` returns the element at the least position that satisfies the test. */
  lemma {:induction false} FindFirst<T(!new)>(p: T -> bool, s: seq<T>, i: nat)
    requires i < |s| && p(s[i])
    requires forall j :: 0 <= j < i ==> !p(s[j])
    ensures Find(p, s) == Some(s[i])
  {
    if i == 0 {
    } else {
      assert !p(s[0]);
      assert s[1..][i - 1] == s[i];
      FindFirst(p, s[1..], i - 1);
    }
  }

  /** Array `every`, as a loop. */
  method Every<T(!new)>(p: T -> bool, s: seq<T>) returns (all: bool)
    ensures all <==> forall x :: x in s ==> p(x)
  {
    for i := 0 to |s|
      invariant forall j :: 0 <= j < i ==> p(s[j])
    {
      if !p(s[i]) {
        assert s[i] in s;
        return false;
      }
    }
    return true;
  }

  ghost predicate NoDup<T>(s: seq<T>) {
    forall i, j :: 0 <= i < j < |s| ==> s[i] != s[j]
  }

  /** `[...new Set(s)]`: the first occurrence of every element, in order. */
  function Dedup<T(==,!new)>(s: seq<T>): (r: seq<T>)
    ensures forall x :: x in r <==> x in s
    ensures NoDup(r)
  {
    if s == [] then []
    else
      var init := Dedup(s[..|s| - 1]);
      assert forall x :: x in s <==> x in s[..|s| - 1] || x == s[|s| - 1];
      if s[|s| - 1] in init then init else init + [s[|s| - 1]]
  }

  lemma NoDupAppend<T>(a: seq<T>, b: seq<T>)
    requires NoDup(a) && NoDup(b)
    requires forall x :: x in a ==> x !in b
    ensures NoDup(a + b)
  {
    forall i, j | 0 <= i < j < |a + b| ensures (a + b)[i] != (a + b)[j] {
      if i < |a| <= j {
        assert (a + b)[i] in a && (a + b)[j] in b;
      }
    }
  }

  // --- Permutations -----------------------------------------------------------------

  lemma {:induction false} NoDupMultiplicity<T>(s: seq<T>, x: T)
    requires NoDup(s)
    ensures multiset(s)[x] == if x in s then 1 else 0
  {
    if s == [] {
    } else {
      var init, last := s[..|s| - 1], s[|s| - 1];
      assert s == init + [last];
      NoDupMultiplicity(init, x);
      assert last !in init;
    }
  }

  /** Two sequences without repetitions over the same elements are permutations. */
  lemma NoDupSameElements<T>(a: seq<T>, b: seq<T>)
    requires NoDup(a) && NoDup(b)
    requires forall x :: x in a <==> x in b
    ensures multiset(a) == multiset(b)
  {
    forall x ensures multiset(a)[x] == multiset(b)[x] {
      NoDupMultiplicity(a, x);
      NoDupMultiplicity(b, x);
    }
  }

  lemma SameMultisetSameElements<T>(a: seq<T>, b: seq<T>)
    requires multiset(a) == multiset(b)
    ensures |a| == |b|
    ensures forall x :: x in a <==> x in b
  {
    assert |multiset(a)| == |a| && |multiset(b)| == |b|;
    forall x ensures x in a <==> x in b {
      assert x in a <==> x in multiset(a);
      assert x in b <==> x in multiset(b);
    }
  }

  /** A permutation is made by moving one element to the end of a permutation of the rest. */
  lemma MoveToEnd<T>(b: seq<T>, x: T) returns (k: nat)
    requires x in b
    ensures k < |b| && b[k] == x
    ensures multiset(b) == multiset(b[..k] + b[k + 1..]) + multiset{x}
  {
    k :| k < |b| && b[k] == x;
    assert b == b[..k] + [x] + b[k + 1..];
  }

  lemma MapConcat<A, B>(f: A -> B, a: seq<A>, b: seq<A>)
    ensures Map(f, a + b) == Map(f, a) + Map(f, b)
  {
    forall i | 0 <= i < |a + b| ensures Map(f, a + b)[i] == (Map(f, a) + Map(f, b))[i] {
      assert Map(f, a + b)[i] == f((a + b)[i]);
    }
  }

  lemma MapAround<A, B>(f: A -> B, pre: seq<A>, x: A, post: seq<A>)
    ensures multiset(Map(f, pre + [x] + post)) == multiset(Map(f, pre + post)) + multiset{f(x)}
  {
    MapConcat(f, pre + [x], post);
    MapConcat(f, pre, [x]);
    MapConcat(f, pre, post);
    assert Map(f, [x]) == [f(x)];
  }

  lemma {:induction false} MapPermutation<A, B>(f: A -> B, a: seq<A>, b: seq<A>)
    requires multiset(a) == multiset(b)
    ensures multiset(Map(f, a)) == multiset(Map(f, b))
    decreases |a|
  {
    SameMultisetSameElements(a, b);
    if a == [] {
    } else {
      var init, last := a[..|a| - 1], a[|a| - 1];
      assert a == init + [last] + [] && init + [] == init;
      assert last in a;
      var k := MoveToEnd(b, last);
      var pre, post := b[..k], b[k + 1..];
      assert b == pre + [last] + post;
      PermutationOfRest(a, init, pre + post, b, last);
      MapPermutation(f, init, pre + post);
      MapAround(f, init, last, []);
      MapAround(f, pre, last, post);
    }
  }

  lemma PermutationOfRest<T>(a: seq<T>, init: seq<T>, rest: seq<T>, b: seq<T>, last: T)
    requires multiset(a) == multiset(b)
    requires a == init + [last]
    requires multiset(b) == multiset(rest) + multiset{last}
    ensures multiset(init) == multiset(rest)
  {
    assert multiset(a) == multiset(init) + multiset{last};
    assert multiset(init) == multiset(a) - multiset{last};
    assert multiset(rest) == multiset(b) - multiset{last};
  }

  lemma {:induction false} FilterPermutation<T(!new)>(p: T -> bool, a: seq<T>, b: seq<T>)
    requires multiset(a) == multiset(b)
    ensures multiset(Filter(p, a)) == multiset(Filter(p, b))
  {
    forall x ensures multiset(Filter(p, a))[x] == multiset(Filter(p, b))[x] {
      FilterMultiplicity(p, a, x);
      FilterMultiplicity(p, b, x);
    }
  }

  lemma {:induction false} FilterMultiplicity<T(!new)>(p: T -> bool, s: seq<T>, x: T)
    ensures multiset(Filter(p, s))[x] == if p(x) then multiset(s)[x] else 0
  {
    if s == [] {
    } else {
      assert s == s[..|s| - 1] + [s[|s| - 1]];
      FilterMultiplicity(p, s[..|s| - 1], x);
    }
  }

  /** Filtering with a test that holds everywhere keeps the whole sequence. */
  lemma {:induction false} FilterAll<T(!new)>(p: T -> bool, s: seq<T>)
    requires forall x :: x in s ==> p(x)
    ensures Filter(p, s) == s
  {
    if s == [] {
    } else {
      FilterAll(p, s[..|s| - 1]);
      assert s == s[..|s| - 1] + [s[|s| - 1]];
    }
  }

  lemma {:induction false} FilterNone<T(!new)>(p: T -> bool, s: seq<T>)
    requires forall x :: x in s ==> !p(x)
    ensures Filter(p, s) == []
  {
    if s == [] {
    } else {
      FilterNone(p, s[..|s| - 1]);
      assert s == s[..|s| - 1] + [s[|s| - 1]];
    }
  }

  /** One iteration of a loop that filters. */
  lemma FilterStep<T(!new)>(p: T -> bool, s: seq<T>, i: nat)
    requires i < |s|
    ensures Filter(p, s[..i + 1]) == if p(s[i]) then Filter(p, s[..i]) + [s[i]] else Filter(p, s[..i])
  {
    assert s[..i + 1][..i] == s[..i];
  }

  /** A filtered count equals the whole count exactly when the test holds everywhere. */
  lemma {:induction false} FilterCount<T(!new)>(p: T -> bool, s: seq<T>)
    ensures |Filter(p, s)| == |s| <==> forall x :: x in s ==> p(x)
  {
    if s == [] {
    } else {
      var init, last := s[..|s| - 1], s[|s| - 1];
      assert s == init + [last];
      FilterCount(p, init);
      assert last in s;
    }
  }
}
