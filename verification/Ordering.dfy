/** Sorting with a comparator, as sort.Slice does it, and when the sorted result is unique. */
module Ordering {

  predicate IntLess(a: int, b: int) {
    a < b
  }

  function Max(a: int, b: int): int {
    if a < b then b else a
  }

  /** What sort.Slice asks of its comparator. */
  ghost predicate StrictWeakOrder<T(!new)>(less: (T, T) -> bool) {
    && (forall a :: !less(a, a))
    && (forall a, b, c :: less(a, b) && less(b, c) ==> less(a, c))
    && (forall a, b, c :: !less(a, b) && !less(b, c) ==> !less(a, c))
  }

  /** No later element belongs before an earlier one. */
  ghost predicate Ordered<T>(less: (T, T) -> bool, xs: seq<T>) {
    forall i, j :: 0 <= i < j < |xs| ==> !less(xs[j], xs[i])
  }

  /** The comparator separates every two places of the sequence. */
  ghost predicate Separated<T>(less: (T, T) -> bool, xs: seq<T>) {
    forall i, j :: 0 <= i < j < |xs| ==> less(xs[i], xs[j]) || less(xs[j], xs[i])
  }

  ghost predicate Increasing<T>(less: (T, T) -> bool, xs: seq<T>) {
    forall i, j :: 0 <= i < j < |xs| ==> less(xs[i], xs[j])
  }

  ghost predicate NoDuplicates<T>(xs: seq<T>) {
    forall i, j :: 0 <= i < j < |xs| ==> xs[i] != xs[j]
  }

  lemma {:induction false} IntOrder()
    ensures StrictWeakOrder(IntLess)
  {
  }

  lemma {:induction false} SomeInt(keys: set<int>)
    requires keys != {}
    ensures exists k :: k in keys
  {
    assert (forall k :: k !in keys) ==> keys == {};
  }

  lemma {:induction false} NoDuplicatesMultiset<T>(xs: seq<T>)
    ensures NoDuplicates(xs) <==> forall x :: multiset(xs)[x] <= 1
  {
    if xs != [] {
      var rest, last := xs[..|xs| - 1], xs[|xs| - 1];
      NoDuplicatesMultiset(rest);
      assert xs == rest + [last];
      if NoDuplicates(xs) {
        assert last !in rest;
        assert multiset(rest)[last] == 0;
      } else if NoDuplicates(rest) {
        assert last in rest;
        assert multiset(xs)[last] >= 2;
      } else {
        var x :| multiset(rest)[x] > 1;
        assert multiset(xs)[x] > 1;
      }
    }
  }

  lemma {:induction false} NoDuplicatesPermuted<T>(xs: seq<T>, ys: seq<T>)
    requires NoDuplicates(xs) && multiset(xs) == multiset(ys)
    ensures NoDuplicates(ys)
  {
    NoDuplicatesMultiset(xs);
    NoDuplicatesMultiset(ys);
  }

  lemma {:induction false} SetSize<T>(xs: seq<T>, s: set<T>)
    requires NoDuplicates(xs) && forall x :: x in xs <==> x in s
    ensures |s| == |xs|
  {
    if xs == [] {
      assert s == {};
    } else {
      var rest, last := xs[..|xs| - 1], xs[|xs| - 1];
      forall x ensures x in rest <==> x in s - {last} {
        assert x in xs <==> x in rest || x == last;
      }
      SetSize(rest, s - {last});
    }
  }

  lemma {:induction false} OrderedSeparated<T(!new)>(less: (T, T) -> bool, xs: seq<T>)
    requires Ordered(less, xs) && Separated(less, xs)
    ensures Increasing(less, xs)
  {
  }

  /** An increasing sequence is determined by the set of its elements. */
  lemma {:induction false} IncreasingUnique<T(!new)>(less: (T, T) -> bool, xs: seq<T>, ys: seq<T>)
    requires StrictWeakOrder(less)
    requires Increasing(less, xs) && Increasing(less, ys)
    requires forall e :: e in xs <==> e in ys
    ensures xs == ys
  {
    assert xs != [] ==> xs[0] in xs;
    assert ys != [] ==> ys[0] in ys;
    if xs != [] {
      assert xs[0] in ys && ys[0] in xs;
      assert xs[0] == ys[0];
      forall e ensures e in xs[1..] <==> e in ys[1..] {
        if e in xs[1..] {
          var i :| 0 <= i < |xs| - 1 && xs[1..][i] == e;
          assert less(xs[0], xs[i + 1]) && e in xs;
          assert e in ys && e != ys[0];
        }
        if e in ys[1..] {
          var i :| 0 <= i < |ys| - 1 && ys[1..][i] == e;
          assert less(ys[0], ys[i + 1]) && e in ys;
          assert e in xs && e != xs[0];
        }
      }
      IncreasingUnique(less, xs[1..], ys[1..]);
      assert xs == [xs[0]] + xs[1..] && ys == [ys[0]] + ys[1..];
    }
  }

  lemma {:induction false} SameHead<T(!new)>(less: (T, T) -> bool, xs: seq<T>, ys: seq<T>)
    requires StrictWeakOrder(less) && Ordered(less, xs) && Increasing(less, ys)
    requires xs != [] && ys != [] && xs[0] in ys && ys[0] in xs
    ensures xs[0] == ys[0]
  {
    var i :| 0 <= i < |xs| && xs[i] == ys[0];
    var k :| 0 <= k < |ys| && ys[k] == xs[0];
    assert i == 0 || !less(xs[i], xs[0]);
    assert k == 0 || less(ys[0], ys[k]);
  }

  lemma {:induction false} MultisetTail<T>(xs: seq<T>)
    requires xs != []
    ensures multiset(xs[1..]) == multiset(xs) - multiset{xs[0]}
  {
    assert xs == [xs[0]] + xs[1..];
  }

  lemma {:induction false} Associate<T>(a: seq<T>, b: seq<T>, c: seq<T>)
    ensures a + (b + c) == a + b + c
  {
  }

  lemma {:induction false} SameElements<T>(xs: seq<T>, ys: seq<T>)
    requires multiset(xs) == multiset(ys)
    ensures forall x :: x in xs <==> x in ys
  {
    forall x ensures x in xs <==> x in ys {
      assert x in xs <==> x in multiset(xs);
      assert x in ys <==> x in multiset(ys);
    }
  }

  lemma {:induction false} MultisetWithout<T>(xs: seq<T>, i: nat)
    requires i < |xs|
    ensures multiset(xs[..i] + xs[i + 1..]) == multiset(xs) - multiset{xs[i]}
  {
    assert xs == xs[..i] + [xs[i]] + xs[i + 1..];
  }

  lemma {:induction false} TailOrdered<T(!new)>(less: (T, T) -> bool, xs: seq<T>)
    requires Ordered(less, xs) && xs != []
    ensures Ordered(less, xs[1..])
  {
  }

  lemma {:induction false} TailIncreasing<T(!new)>(less: (T, T) -> bool, xs: seq<T>)
    requires Increasing(less, xs) && xs != []
    ensures Increasing(less, xs[1..])
  {
  }

  /** An ordered permutation of an increasing sequence is that sequence. */
  lemma {:induction false} OrderedUnique<T(!new)>(less: (T, T) -> bool, xs: seq<T>, ys: seq<T>)
    requires StrictWeakOrder(less) && Ordered(less, xs) && Increasing(less, ys)
    requires multiset(xs) == multiset(ys)
    ensures xs == ys
  {
    assert |xs| == |multiset(xs)| == |multiset(ys)| == |ys|;
    if xs != [] {
      assert xs[0] in multiset(ys) && ys[0] in multiset(xs);
      SameHead(less, xs, ys);
      MultisetTail(xs);
      MultisetTail(ys);
      TailOrdered(less, xs);
      TailIncreasing(less, ys);
      hide StrictWeakOrder, Ordered, Increasing;
      OrderedUnique(less, xs[1..], ys[1..]);
      assert xs == [xs[0]] + xs[1..] && ys == [ys[0]] + ys[1..];
    }
  }

  /** The first sequence is left when elements of the second are taken out. */
  predicate Within<T(==)>(xs: seq<T>, ys: seq<T>) {
    if xs == [] then true
    else if ys == [] then false
    else
      || Within(xs, ys[..|ys| - 1])
      || (xs[|xs| - 1] == ys[|ys| - 1] && Within(xs[..|xs| - 1], ys[..|ys| - 1]))
  }

  lemma {:induction false} WithinMore<T>(xs: seq<T>, ys: seq<T>, added: seq<T>)
    requires Within(xs, ys)
    ensures Within(xs, ys + added)
  {
    if added == [] {
      assert ys + added == ys;
    } else {
      WithinMore(xs, ys, added[..|added| - 1]);
      assert (ys + added)[..|ys + added| - 1] == ys + added[..|added| - 1];
    }
  }

  lemma {:induction false} WithinBoth<T>(xs: seq<T>, ys: seq<T>, added: seq<T>)
    requires Within(xs, ys)
    ensures Within(xs + added, ys + added)
  {
    if added == [] {
      assert xs + added == xs && ys + added == ys;
    } else {
      WithinBoth(xs, ys, added[..|added| - 1]);
      assert (xs + added)[..|xs + added| - 1] == xs + added[..|added| - 1];
      assert (ys + added)[..|ys + added| - 1] == ys + added[..|added| - 1];
    }
  }

  /** Stands for sort.Slice: some ordered permutation. */
  method SortSlice<T(!new)>(less: (T, T) -> bool, xs: seq<T>) returns (ys: seq<T>)
    requires StrictWeakOrder(less)
    ensures Ordered(less, ys)
    ensures multiset(ys) == multiset(xs)
  {
    ys := [];
    var n := 0;
    while n < |xs|
      invariant 0 <= n <= |xs|
      invariant Ordered(less, ys)
      invariant multiset(ys) == multiset(xs[..n])
    {
      ys := Insert(less, ys, xs[n]);
      assert xs[..n + 1] == xs[..n] + [xs[n]];
      n := n + 1;
    }
    assert xs[..n] == xs;
  }

  method Insert<T(!new)>(less: (T, T) -> bool, xs: seq<T>, x: T) returns (ys: seq<T>)
    requires StrictWeakOrder(less) && Ordered(less, xs)
    ensures Ordered(less, ys)
    ensures multiset(ys) == multiset(xs) + multiset{x}
  {
    var k := 0;
    while k < |xs| && !less(x, xs[k])
      invariant 0 <= k <= |xs|
      invariant forall i :: 0 <= i < k ==> !less(x, xs[i])
    {
      k := k + 1;
    }
    ys := xs[..k] + [x] + xs[k..];
    InsertOrdered(less, xs, k, x);
    assert xs == xs[..k] + xs[k..];
  }

  lemma {:induction false} InsertOrdered<T(!new)>(less: (T, T) -> bool, xs: seq<T>, k: nat, x: T)
    requires StrictWeakOrder(less) && Ordered(less, xs)
    requires k <= |xs|
    requires forall i :: 0 <= i < k ==> !less(x, xs[i])
    requires k < |xs| ==> less(x, xs[k])
    ensures Ordered(less, xs[..k] + [x] + xs[k..])
  {
    var ys := xs[..k] + [x] + xs[k..];
    forall i, j | 0 <= i < j < |ys| ensures !less(ys[j], ys[i]) {
      if i == k {
        assert ys[j] == xs[j - 1];
        assert j - 1 == k || !less(xs[j - 1], xs[k]);
      }
    }
  }
}
