/** Total orders, the order Python gives to strings, and stable sorting by a key. */
module Ordering {
  import opened Sequences

  ghost predicate TotalPreorder<T(!new)>(leq: (T, T) -> bool) {
    && (forall a, b :: leq(a, b) || leq(b, a))
    && (forall a, b, c :: leq(a, b) && leq(b, c) ==> leq(a, c))
  }

  ghost predicate Sorted<T>(leq: (T, T) -> bool, xs: seq<T>) {
    forall i, j :: 0 <= i < j < |xs| ==> leq(xs[i], xs[j])
  }

  /** No two different elements of `xs` tie. */
  ghost predicate NoTies<T>(leq: (T, T) -> bool, xs: seq<T>) {
    forall x, y :: x in xs && y in xs && leq(x, y) && leq(y, x) ==> x == y
  }

  /** Places `x` before the first element it does not exceed, so equal keys keep their order. */
  function Insert<T>(leq: (T, T) -> bool, x: T, xs: seq<T>): (r: seq<T>)
    ensures |r| == |xs| + 1
  {
    if |xs| == 0 || leq(x, xs[0]) then [x] + xs else [xs[0]] + Insert(leq, x, xs[1..])
  }

  /** `sorted(xs, key=...)`, where `leq` compares the keys. */
  function Sort<T>(leq: (T, T) -> bool, xs: seq<T>): (r: seq<T>)
    ensures |r| == |xs|
  {
    if |xs| == 0 then [] else Insert(leq, xs[0], Sort(leq, xs[1..]))
  }

  lemma {:induction false} InsertAdds<T(!new)>(leq: (T, T) -> bool, x: T, xs: seq<T>)
    ensures multiset(Insert(leq, x, xs)) == multiset(xs) + multiset{x}
    ensures forall y :: y in Insert(leq, x, xs) <==> y == x || y in xs
  {
    if xs != [] && !leq(x, xs[0]) {
      InsertAdds(leq, x, xs[1..]);
      assert xs == [xs[0]] + xs[1..];
    }
  }

  lemma {:induction false} InsertSorts<T(!new)>(leq: (T, T) -> bool, x: T, xs: seq<T>)
    requires TotalPreorder(leq) && Sorted(leq, xs)
    ensures Sorted(leq, Insert(leq, x, xs))
  {
    if xs != [] {
      if leq(x, xs[0]) {
        forall j | 0 <= j < |xs| ensures leq(x, xs[j]) {
          assert j == 0 || leq(xs[0], xs[j]);
        }
      } else {
        InsertSorts(leq, x, xs[1..]);
        InsertAdds(leq, x, xs[1..]);
        var rest := Insert(leq, x, xs[1..]);
        forall y | y in rest ensures leq(xs[0], y) {
          assert leq(xs[0], x);
        }
      }
    }
  }

  lemma {:induction false} SortSorts<T(!new)>(leq: (T, T) -> bool, xs: seq<T>)
    requires TotalPreorder(leq)
    ensures Sorted(leq, Sort(leq, xs))
    ensures multiset(Sort(leq, xs)) == multiset(xs)
    ensures forall x :: x in Sort(leq, xs) <==> x in xs
  {
    if xs != [] {
      SortSorts(leq, xs[1..]);
      InsertSorts(leq, xs[0], Sort(leq, xs[1..]));
      InsertAdds(leq, xs[0], Sort(leq, xs[1..]));
      assert xs == [xs[0]] + xs[1..];
    }
  }

  lemma SortedHeadsAgree<T(!new)>(leq: (T, T) -> bool, a: seq<T>, b: seq<T>)
    requires TotalPreorder(leq) && Sorted(leq, a) && Sorted(leq, b)
    requires multiset(a) == multiset(b) && NoTies(leq, a) && a != [] && b != []
    ensures a[0] == b[0]
  {
    SameMembers(a, b);
    assert b[0] in a && a[0] in b;
  }

  lemma SortedTail<T(!new)>(leq: (T, T) -> bool, a: seq<T>)
    requires Sorted(leq, a) && a != []
    ensures Sorted(leq, a[1..])
    ensures multiset(a[1..]) == multiset(a) - multiset{a[0]}
    ensures NoTies(leq, a) ==> NoTies(leq, a[1..])
  {
    assert a == [a[0]] + a[1..];
    assert forall x :: x in a[1..] ==> x in a;
  }

  /** Without ties there is only one sorted arrangement of a given collection. */
  lemma {:induction false} SortedUnique<T(!new)>(leq: (T, T) -> bool, a: seq<T>, b: seq<T>)
    requires TotalPreorder(leq) && Sorted(leq, a) && Sorted(leq, b)
    requires multiset(a) == multiset(b) && NoTies(leq, a)
    ensures a == b
  {
    SameMembers(a, b);
    if a != [] {
      SortedHeadsAgree(leq, a, b);
      SortedTail(leq, a);
      SortedTail(leq, b);
      hide TotalPreorder, Sorted, NoTies;
      SortedUnique(leq, a[1..], b[1..]);
      assert a == [a[0]] + a[1..] && b == [b[0]] + b[1..];
    }
  }

  /** Sorting forgets the original order when no two elements tie. */
  lemma SortForgetsOrder<T(!new)>(leq: (T, T) -> bool, a: seq<T>, b: seq<T>)
    requires TotalPreorder(leq) && multiset(a) == multiset(b) && NoTies(leq, a)
    ensures Sort(leq, a) == Sort(leq, b)
  {
    SortSorts(leq, a);
    SortSorts(leq, b);
    SortedUnique(leq, Sort(leq, a), Sort(leq, b));
  }

  /** Sorting one element more is inserting it into the sorted rest. */
  lemma SortWithOneMore<T(!new)>(leq: (T, T) -> bool, xs: seq<T>, x: T)
    requires TotalPreorder(leq) && NoTies(leq, xs + [x])
    ensures Sort(leq, xs + [x]) == Insert(leq, x, Sort(leq, xs))
  {
    SortSorts(leq, xs);
    SortSorts(leq, xs + [x]);
    InsertSorts(leq, x, Sort(leq, xs));
    InsertAdds(leq, x, Sort(leq, xs));
    assert NoTies(leq, Sort(leq, xs + [x]));
    SortedUnique(leq, Sort(leq, xs + [x]), Insert(leq, x, Sort(leq, xs)));
  }

  /** Sorting everything but a least element drops the head of the sorted whole. */
  lemma {:induction false} SortWithoutLeast<T(!new)>(leq: (T, T) -> bool, xs: seq<T>, i: nat)
    requires TotalPreorder(leq) && NoTies(leq, xs)
    requires i < |xs| && forall x :: x in xs ==> leq(xs[i], x)
    ensures Sort(leq, xs)[0] == xs[i]
    ensures Sort(leq, xs[..i] + xs[i + 1..]) == Sort(leq, xs)[1..]
  {
    var rest := xs[..i] + xs[i + 1..];
    SortSorts(leq, xs);
    SortSorts(leq, rest);
    assert Sort(leq, xs)[0] in xs;
    RemoveAt(xs, i);
    assert NoTies(leq, Sort(leq, xs));
    SortedTail(leq, Sort(leq, xs));
    SortedUnique(leq, Sort(leq, xs)[1..], Sort(leq, rest));
  }

  /** Sorting everything but a greatest element drops the last of the sorted whole. */
  lemma {:induction false} SortWithoutGreatest<T(!new)>(leq: (T, T) -> bool, xs: seq<T>, i: nat)
    requires TotalPreorder(leq) && NoTies(leq, xs)
    requires i < |xs| && forall x :: x in xs ==> leq(x, xs[i])
    ensures Sort(leq, xs[..i] + xs[i + 1..]) == Sort(leq, xs)[..|xs| - 1]
  {
    SortSorts(leq, xs);
    SortSorts(leq, xs[..i] + xs[i + 1..]);
    RemoveAt(xs, i);
    GreatestIsLast(leq, xs, Sort(leq, xs), xs[i]);
    SortedInit(leq, Sort(leq, xs));
    SortedUnique(leq, Sort(leq, xs)[..|xs| - 1], Sort(leq, xs[..i] + xs[i + 1..]));
  }

  lemma SortedInit<T(!new)>(leq: (T, T) -> bool, a: seq<T>)
    requires Sorted(leq, a) && a != []
    ensures Sorted(leq, a[..|a| - 1])
    ensures multiset(a[..|a| - 1]) == multiset(a) - multiset{a[|a| - 1]}
    ensures NoTies(leq, a) ==> NoTies(leq, a[..|a| - 1])
  {
    assert a == a[..|a| - 1] + [a[|a| - 1]];
    assert forall x :: x in a[..|a| - 1] ==> x in a;
  }

  lemma GreatestIsLast<T(!new)>(leq: (T, T) -> bool, xs: seq<T>, sorted: seq<T>, m: T)
    requires TotalPreorder(leq) && NoTies(leq, xs) && Sorted(leq, sorted)
    requires multiset(xs) == multiset(sorted)
    requires m in xs && forall x :: x in xs ==> leq(x, m)
    ensures |sorted| == |xs| && sorted[|xs| - 1] == m && NoTies(leq, sorted)
  {
    SameMembers(xs, sorted);
    assert sorted[|xs| - 1] in xs;
  }

  /** Restricting a sorted sequence keeps it sorted. */
  lemma {:induction false} FilterKeepsSorted<T(!new)>(leq: (T, T) -> bool, keep: T -> bool, xs: seq<T>)
    requires Sorted(leq, xs)
    ensures Sorted(leq, Filter(keep, xs))
  {
    if xs != [] {
      FilterKeepsSorted(leq, keep, xs[1..]);
      assert forall x :: x in xs[1..] ==> leq(xs[0], x);
    }
  }

  /** Sorting what is kept is keeping from what is sorted. */
  lemma SortOfFilter<T(!new)>(leq: (T, T) -> bool, keep: T -> bool, xs: seq<T>)
    requires TotalPreorder(leq) && NoTies(leq, xs)
    ensures Sort(leq, Filter(keep, xs)) == Filter(keep, Sort(leq, xs))
  {
    SortSorts(leq, xs);
    SortSorts(leq, Filter(keep, xs));
    FilterKeepsSorted(leq, keep, Sort(leq, xs));
    FilterRearranged(keep, Sort(leq, xs), xs);
    SortedUnique(leq, Sort(leq, Filter(keep, xs)), Filter(keep, Sort(leq, xs)));
  }

  /** In a sorted sequence a downward-closed property holds of a prefix. */
  lemma {:induction false} FilterIsPrefix<T(!new)>(leq: (T, T) -> bool, keep: T -> bool, xs: seq<T>)
    requires Sorted(leq, xs) && DownClosed(leq, keep)
    ensures Filter(keep, xs) == xs[..|Filter(keep, xs)|]
    ensures forall i :: |Filter(keep, xs)| <= i < |xs| ==> !keep(xs[i])
  {
    hide DownClosed, Sorted;
    if |xs| > 0 {
      HeadDecides(leq, keep, xs);
      if keep(xs[0]) {
        FilterIsPrefix(leq, keep, xs[1..]);
        PrefixOneMore(xs, |Filter(keep, xs[1..])|);
      } else {
        FilterNone(keep, xs);
      }
    }
  }

  /** What is kept is kept with everything before it. */
  ghost predicate DownClosed<T(!new)>(leq: (T, T) -> bool, keep: T -> bool) {
    forall a, b :: leq(a, b) && keep(b) ==> keep(a)
  }

  lemma HeadDecides<T(!new)>(leq: (T, T) -> bool, keep: T -> bool, xs: seq<T>)
    requires Sorted(leq, xs) && DownClosed(leq, keep) && |xs| > 0
    ensures Sorted(leq, xs[1..])
    ensures !keep(xs[0]) ==> forall x :: x in xs ==> !keep(x)
  {
    forall x | x in xs && !keep(xs[0]) ensures !keep(x) {
      var i :| 0 <= i < |xs| && xs[i] == x;
      assert i == 0 || leq(xs[0], xs[i]);
    }
  }

  lemma PrefixOneMore<T>(xs: seq<T>, n: nat)
    requires n < |xs|
    ensures xs[..n + 1] == [xs[0]] + xs[1..][..n]
    ensures forall i :: n + 1 <= i < |xs| ==> xs[i] == xs[1..][i - 1]
  {
    var rest := xs[1..];
    forall j | 0 <= j < n + 1 ensures xs[..n + 1][j] == ([xs[0]] + rest[..n])[j] {
    }
  }

  // ---- keys ----

  lemma KeysOfCons<T, U>(key: T -> U, x: T, xs: seq<T>)
    ensures Map(key, [x] + xs) == [key(x)] + Map(key, xs)
    ensures Distinct(Map(key, [x] + xs)) <==> key(x) !in Map(key, xs) && Distinct(Map(key, xs))
  {
    assert Map(key, [x] + xs) == [key(x)] + Map(key, xs);
    hide Map;
    DistinctCons(key(x), Map(key, xs));
  }

  lemma DistinctCons<U>(k: U, ks: seq<U>)
    ensures Distinct([k] + ks) <==> k !in ks && Distinct(ks)
  {
    var all := [k] + ks;
    assert forall i :: 0 <= i < |ks| ==> all[i + 1] == ks[i];
    if Distinct(all) {
      forall i, j | 0 <= i < j < |ks| ensures ks[i] != ks[j] {
        assert all[i + 1] != all[j + 1];
      }
      forall i | 0 <= i < |ks| ensures ks[i] != k {
        assert all[0] != all[i + 1];
      }
    }
  }

  lemma {:induction false} InsertKeys<T, U>(leq: (T, T) -> bool, key: T -> U, x: T, xs: seq<T>, k: U)
    ensures k in Map(key, Insert(leq, x, xs)) <==> k == key(x) || k in Map(key, xs)
  {
    if |xs| == 0 || leq(x, xs[0]) {
      KeysOfCons(key, x, xs);
    } else {
      assert xs == [xs[0]] + xs[1..];
      KeysOfCons(key, xs[0], xs[1..]);
      InsertKeys(leq, key, x, xs[1..], k);
      KeysOfCons(key, xs[0], Insert(leq, x, xs[1..]));
    }
  }

  lemma {:induction false} InsertKeepsKeys<T, U>(leq: (T, T) -> bool, key: T -> U, x: T, xs: seq<T>)
    requires Distinct(Map(key, xs)) && key(x) !in Map(key, xs)
    ensures Distinct(Map(key, Insert(leq, x, xs)))
  {
    hide Distinct;
    if |xs| == 0 || leq(x, xs[0]) {
      KeysOfCons(key, x, xs);
    } else {
      assert xs == [xs[0]] + xs[1..];
      KeysOfCons(key, xs[0], xs[1..]);
      InsertKeepsKeys(leq, key, x, xs[1..]);
      InsertKeys(leq, key, x, xs[1..], key(xs[0]));
      KeysOfCons(key, xs[0], Insert(leq, x, xs[1..]));
    }
  }

  lemma {:induction false} SortKeys<T, U>(leq: (T, T) -> bool, key: T -> U, xs: seq<T>, k: U)
    ensures k in Map(key, Sort(leq, xs)) <==> k in Map(key, xs)
  {
    if |xs| > 0 {
      assert xs == [xs[0]] + xs[1..];
      KeysOfCons(key, xs[0], xs[1..]);
      SortKeys(leq, key, xs[1..], k);
      InsertKeys(leq, key, xs[0], Sort(leq, xs[1..]), k);
    }
  }

  /** Sorting keeps a key unique. */
  lemma {:induction false} SortKeepsKeys<T, U>(leq: (T, T) -> bool, key: T -> U, xs: seq<T>)
    requires Distinct(Map(key, xs))
    ensures Distinct(Map(key, Sort(leq, xs)))
  {
    hide Distinct;
    if |xs| > 0 {
      assert xs == [xs[0]] + xs[1..];
      KeysOfCons(key, xs[0], xs[1..]);
      SortKeepsKeys(leq, key, xs[1..]);
      SortKeys(leq, key, xs[1..], key(xs[0]));
      InsertKeepsKeys(leq, key, xs[0], Sort(leq, xs[1..]));
    }
  }

  // ---- strings ----

  /** Python's comparison of strings: code point by code point, a prefix first. */
  predicate LexLeq(a: string, b: string) {
    a == "" || (b != "" && (a[0] < b[0] || (a[0] == b[0] && LexLeq(a[1..], b[1..]))))
  }

  /** The first difference of two strings, with the smaller character in `a`. */
  ghost predicate LessAt(a: string, b: string, i: nat) { i < |a| && i < |b| && a[..i] == b[..i] && a[i] < b[i] }

  lemma {:induction false} FirstDifference(a: string, b: string) returns (i: nat)
    requires LexLeq(a, b)
    ensures a <= b || LessAt(a, b, i)
  {
    i := 0;
    if a != "" && a[0] == b[0] {
      var j := FirstDifference(a[1..], b[1..]);
      assert a == [a[0]] + a[1..] && b == [b[0]] + b[1..];
      if !(a[1..] <= b[1..]) {
        i := j + 1;
        assert a[..i] == [a[0]] + a[1..][..j] && b[..i] == [b[0]] + b[1..][..j];
      }
    }
  }

  lemma {:induction false} DifferenceDecides(a: string, b: string, i: nat)
    requires a <= b || LessAt(a, b, i)
    ensures LexLeq(a, b)
  {
    if a != "" && a <= b {
      assert a[1..] <= b[1..];
      DifferenceDecides(a[1..], b[1..], 0);
    } else if a != "" && i > 0 {
      assert a[..i][0] == b[..i][0] && a[1..][..i - 1] == a[..i][1..] && b[1..][..i - 1] == b[..i][1..];
      DifferenceDecides(a[1..], b[1..], i - 1);
    }
  }

  /** That is the order of a dictionary: a string comes before its extensions, and else the first difference decides. */
  lemma {:induction false} LexIsDictionaryOrder(a: string, b: string)
    ensures LexLeq(a, b) <==> a <= b || exists i :: LessAt(a, b, i)
  {
    if LexLeq(a, b) {
      var i := FirstDifference(a, b);
    }
    if i :| LessAt(a, b, i) {
      DifferenceDecides(a, b, i);
    }
    if a <= b {
      DifferenceDecides(a, b, 0);
    }
  }

  lemma {:induction false} LexTotal(a: string, b: string)
    ensures LexLeq(a, b) || LexLeq(b, a)
    ensures LexLeq(a, b) && LexLeq(b, a) ==> a == b
    ensures LexLeq(a, a)
    decreases |a|
  {
    if a != "" {
      LexTotal(a[1..], a[1..]);
      if b != "" && a[0] == b[0] {
        LexTotal(a[1..], b[1..]);
        assert a == [a[0]] + a[1..] && b == [b[0]] + b[1..];
      }
    }
  }

  lemma {:induction false} LexTransitive(a: string, b: string, c: string)
    requires LexLeq(a, b) && LexLeq(b, c)
    ensures LexLeq(a, c)
  {
    if a != "" && a[0] == b[0] && b[0] == c[0] {
      LexTransitive(a[1..], b[1..], c[1..]);
    }
  }

  lemma {:induction false} LexIsTotalOrder()
    ensures TotalPreorder(LexLeq)
    ensures forall a, b :: LexLeq(a, b) && LexLeq(b, a) ==> a == b
  {
    forall a, b ensures (LexLeq(a, b) || LexLeq(b, a)) && (LexLeq(a, b) && LexLeq(b, a) ==> a == b) {
      LexTotal(a, b);
    }
    forall a, b, c | LexLeq(a, b) && LexLeq(b, c) ensures LexLeq(a, c) {
      LexTransitive(a, b, c);
    }
  }
}
