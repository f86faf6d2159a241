/** Facts about finite sequences that several components share. */
module Sequences {

  ghost predicate Distinct<T>(xs: seq<T>) {
    forall i, j :: 0 <= i < j < |xs| ==> xs[i] != xs[j]
  }

  function Min(a: int, b: int): int { if a <= b then a else b }

  function Max(a: int, b: int): int { if a >= b then a else b }

  /** The first `n` elements, or all of them when there are fewer. */
  function Take<T>(xs: seq<T>, n: nat): seq<T> {
    if n < |xs| then xs[..n] else xs
  }

  function Map<T, U>(f: T -> U, xs: seq<T>): (r: seq<U>)
    ensures |r| == |xs|
    ensures forall i :: 0 <= i < |xs| ==> r[i] == f(xs[i])
  {
    seq(|xs|, i requires 0 <= i < |xs| => f(xs[i]))
  }

  lemma MapConcat<T, U>(f: T -> U, a: seq<T>, b: seq<T>)
    ensures Map(f, a + b) == Map(f, a) + Map(f, b)
  {
  }

  function Filter<T(!new)>(keep: T -> bool, xs: seq<T>): (r: seq<T>)
    ensures |r| <= |xs|
    ensures forall x :: x in r <==> x in xs && keep(x)
  {
    if |xs| == 0 then [] else (if keep(xs[0]) then [xs[0]] else []) + Filter(keep, xs[1..])
  }

  lemma {:induction false} FilterConcat<T(!new)>(keep: T -> bool, a: seq<T>, b: seq<T>)
    ensures Filter(keep, a + b) == Filter(keep, a) + Filter(keep, b)
  {
    if a == [] {
      assert a + b == b;
    } else {
      assert (a + b)[1..] == a[1..] + b;
      FilterConcat(keep, a[1..], b);
    }
  }

  lemma {:induction false} FilterAll<T(!new)>(keep: T -> bool, xs: seq<T>)
    requires forall x :: x in xs ==> keep(x)
    ensures Filter(keep, xs) == xs
  {
    if xs != [] {
      FilterAll(keep, xs[1..]);
    }
  }

  lemma {:induction false} FilterNone<T(!new)>(keep: T -> bool, xs: seq<T>)
    requires forall x :: x in xs ==> !keep(x)
    ensures Filter(keep, xs) == []
  {
    if xs != [] {
      FilterNone(keep, xs[1..]);
    }
  }

  /** A filter and its complement split the elements, multiplicities included. */
  lemma {:induction false} FilterSplit<T(!new)>(keep: T -> bool, drop: T -> bool, xs: seq<T>)
    requires forall x :: x in xs ==> (keep(x) <==> !drop(x))
    ensures multiset(Filter(keep, xs)) + multiset(Filter(drop, xs)) == multiset(xs)
    ensures |Filter(keep, xs)| + |Filter(drop, xs)| == |xs|
  {
    if xs != [] {
      FilterSplit(keep, drop, xs[1..]);
      assert xs == [xs[0]] + xs[1..];
    }
  }

  lemma {:induction false} FilterCounts<T(!new)>(keep: T -> bool, xs: seq<T>, x: T)
    ensures multiset(Filter(keep, xs))[x] == if keep(x) then multiset(xs)[x] else 0
  {
    if xs != [] {
      FilterCounts(keep, xs[1..], x);
      assert xs == [xs[0]] + xs[1..];
    }
  }

  /** Filtering commutes with rearranging. */
  lemma FilterRearranged<T(!new)>(keep: T -> bool, a: seq<T>, b: seq<T>)
    requires multiset(a) == multiset(b)
    ensures multiset(Filter(keep, a)) == multiset(Filter(keep, b))
  {
    forall x ensures multiset(Filter(keep, a))[x] == multiset(Filter(keep, b))[x] {
      FilterCounts(keep, a, x);
      FilterCounts(keep, b, x);
    }
  }

  lemma {:induction false} FilterDistinct<T(!new)>(keep: T -> bool, xs: seq<T>)
    requires Distinct(xs)
    ensures Distinct(Filter(keep, xs))
  {
    if xs != [] {
      FilterDistinct(keep, xs[1..]);
      assert forall x :: x in Filter(keep, xs[1..]) ==> x in xs[1..];
    }
  }

  lemma {:induction false} FilterCommutes<T(!new)>(p: T -> bool, q: T -> bool, xs: seq<T>)
    ensures Filter(p, Filter(q, xs)) == Filter(q, Filter(p, xs))
  {
    if |xs| > 0 {
      FilterCommutes(p, q, xs[1..]);
      FilterConcat(p, if q(xs[0]) then [xs[0]] else [], Filter(q, xs[1..]));
      FilterConcat(q, if p(xs[0]) then [xs[0]] else [], Filter(p, xs[1..]));
    }
  }

  /** One filter after another is the filter for both. */
  lemma {:induction false} FilterTwice<T(!new)>(p: T -> bool, q: T -> bool, both: T -> bool, xs: seq<T>)
    requires forall x :: both(x) <==> p(x) && q(x)
    ensures Filter(p, Filter(q, xs)) == Filter(both, xs)
  {
    if |xs| > 0 {
      FilterTwice(p, q, both, xs[1..]);
      FilterConcat(p, if q(xs[0]) then [xs[0]] else [], Filter(q, xs[1..]));
    }
  }

  /** Filtering keeps a key unique. */
  lemma {:induction false} FilterDistinctKeys<T(!new), U>(key: T -> U, keep: T -> bool, xs: seq<T>)
    requires Distinct(Map(key, xs))
    ensures Distinct(Map(key, Filter(keep, xs)))
  {
    if |xs| > 0 {
      var rest := Filter(keep, xs[1..]);
      assert Map(key, xs[1..]) == Map(key, xs)[1..];
      FilterDistinctKeys(key, keep, xs[1..]);
      HeadKeyIsNew(key, xs, rest);
      assert Map(key, [xs[0]] + rest) == [key(xs[0])] + Map(key, rest);
    }
  }

  lemma HeadKeyIsNew<T(!new), U>(key: T -> U, xs: seq<T>, some: seq<T>)
    requires |xs| > 0 && Distinct(Map(key, xs)) && forall x :: x in some ==> x in xs[1..]
    ensures key(xs[0]) !in Map(key, some)
  {
    forall i | 0 <= i < |some| ensures key(some[i]) != key(xs[0]) {
      assert some[i] in some;
      var j :| 0 <= j < |xs[1..]| && xs[1..][j] == some[i];
      assert Map(key, xs)[j + 1] == key(some[i]);
    }
  }

  /** Elements with the same unique key are the same. */
  lemma SameKey<T, U>(key: T -> U, xs: seq<T>, a: T, b: T)
    requires Distinct(Map(key, xs)) && a in xs && b in xs && key(a) == key(b)
    ensures a == b
  {
    var i :| 0 <= i < |xs| && xs[i] == a;
    var j :| 0 <= j < |xs| && xs[j] == b;
    assert Map(key, xs)[i] == key(a) && Map(key, xs)[j] == key(b);
  }

  lemma KeyIn<T, U>(key: T -> U, xs: seq<T>, x: T)
    requires x in xs
    ensures key(x) in Map(key, xs)
  {
    var i :| 0 <= i < |xs| && xs[i] == x;
    assert Map(key, xs)[i] == key(x);
  }

  lemma WithKey<T, U>(key: T -> U, xs: seq<T>, k: U) returns (x: T)
    requires k in Map(key, xs)
    ensures x in xs && key(x) == k
  {
    var i :| 0 <= i < |xs| && Map(key, xs)[i] == k;
    x := xs[i];
  }

  function Sum(xs: seq<int>): int {
    if |xs| == 0 then 0 else xs[0] + Sum(xs[1..])
  }

  lemma {:induction false} SumConcat(a: seq<int>, b: seq<int>)
    ensures Sum(a + b) == Sum(a) + Sum(b)
  {
    if a == [] {
      assert a + b == b;
    } else {
      assert (a + b)[1..] == a[1..] + b;
      SumConcat(a[1..], b);
    }
  }

  lemma {:induction false} SumNonNegative(xs: seq<int>)
    requires forall i :: 0 <= i < |xs| ==> 0 <= xs[i]
    ensures 0 <= Sum(xs)
  {
    if xs != [] {
      SumNonNegative(xs[1..]);
    }
  }

  lemma SplitAt<T>(xs: seq<T>, i: nat)
    requires i <= |xs|
    ensures xs == xs[..i] + xs[i..]
    ensures multiset(xs) == multiset(xs[..i]) + multiset(xs[i..])
  {
    assert xs == xs[..i] + xs[i..];
  }

  /** Removing one element at `i` removes exactly one copy of it. */
  lemma RemoveAt<T>(xs: seq<T>, i: nat)
    requires i < |xs|
    ensures multiset(xs[..i] + xs[i + 1..]) == multiset(xs) - multiset{xs[i]}
    ensures multiset(xs) == multiset(xs[..i] + xs[i + 1..]) + multiset{xs[i]}
  {
    assert xs == xs[..i] + [xs[i]] + xs[i + 1..];
  }

  /** Elements of a sequence with the same multiset are the same elements. */
  lemma SameMembers<T(!new)>(a: seq<T>, b: seq<T>)
    requires multiset(a) == multiset(b)
    ensures |a| == |b|
    ensures forall x :: x in a <==> x in b
  {
    assert |multiset(a)| == |a| && |multiset(b)| == |b|;
    forall x ensures x in a <==> x in b {
      assert x in a <==> x in multiset(a);
      assert x in b <==> x in multiset(b);
    }
  }

  // ---- first occurrences ----

  /** Each text where it first occurs. */
  function Unique(xs: seq<string>): seq<string> {
    if |xs| == 0 then [] else
      var before, x := Unique(xs[..|xs| - 1]), xs[|xs| - 1];
      if x in before then before else before + [x]
  }

  lemma {:induction false} UniqueMembers(xs: seq<string>)
    ensures Distinct(Unique(xs)) && forall x :: x in Unique(xs) <==> x in xs
  {
    if |xs| > 0 {
      var n := |xs| - 1;
      UniqueMembers(xs[..n]);
      assert xs == xs[..n] + [xs[n]];
    }
  }

  lemma {:induction false} UniqueOfDistinct(xs: seq<string>)
    requires Distinct(xs)
    ensures Unique(xs) == xs
  {
    if |xs| > 0 {
      UniqueOfDistinct(xs[..|xs| - 1]);
    }
  }

  lemma {:induction false} CountInDistinct<T>(xs: seq<T>, x: T)
    requires Distinct(xs)
    ensures multiset(xs)[x] == if x in xs then 1 else 0
  {
    if |xs| > 0 {
      CountInDistinct(xs[1..], x);
      assert xs == [xs[0]] + xs[1..];
      if x == xs[0] {
        assert forall i :: 0 <= i < |xs[1..]| ==> xs[1..][i] == xs[i + 1];
      }
    }
  }

  /** Distinct elements with the same members are rearrangements of each other. */
  lemma SameDistinctMembers<T(!new)>(a: seq<T>, b: seq<T>)
    requires Distinct(a) && Distinct(b) && forall x :: x in a <==> x in b
    ensures multiset(a) == multiset(b)
  {
    forall x ensures multiset(a)[x] == multiset(b)[x] {
      CountInDistinct(a, x);
      CountInDistinct(b, x);
    }
  }
}
