/** Sums, filters and stable sorting of sequences, as JavaScript's reduce, filter and sort do them. */
module Sequences {

  function SumUpTo<T>(xs: seq<T>, n: nat, f: T -> int): int
    requires n <= |xs|
  {
    if n == 0 then 0 else SumUpTo(xs, n - 1, f) + f(xs[n - 1])
  }

  function Sum<T>(xs: seq<T>, f: T -> int): int {
    SumUpTo(xs, |xs|, f)
  }

  lemma {:induction false} SumPrefix<T>(xs: seq<T>, ys: seq<T>, n: nat, f: T -> int)
    requires n <= |xs| && n <= |ys| && xs[..n] == ys[..n]
    ensures SumUpTo(xs, n, f) == SumUpTo(ys, n, f)
  {
    if n > 0 {
      assert xs[..n][..n - 1] == xs[..n - 1] && ys[..n][..n - 1] == ys[..n - 1];
      assert xs[n - 1] == xs[..n][n - 1] == ys[n - 1];
      SumPrefix(xs, ys, n - 1, f);
    }
  }

  lemma SumAppend<T>(xs: seq<T>, x: T, f: T -> int)
    ensures Sum(xs + [x], f) == Sum(xs, f) + f(x)
  {
    SumPrefix(xs + [x], xs, |xs|, f);
  }

  lemma {:induction false} SumSame<T>(xs: seq<T>, n: nat, f: T -> int, g: T -> int)
    requires n <= |xs| && forall x | x in xs :: f(x) == g(x)
    ensures SumUpTo(xs, n, f) == SumUpTo(xs, n, g)
  {
    if n > 0 {
      SumSame(xs, n - 1, f, g);
    }
  }

  // ----- Filter -----

  function Filter<T>(xs: seq<T>, n: nat, p: T -> bool): seq<T>
    requires n <= |xs|
  {
    if n == 0 then [] else Filter(xs, n - 1, p) + (if p(xs[n - 1]) then [xs[n - 1]] else [])
  }

  lemma {:induction false} FilterMembers<T>(xs: seq<T>, n: nat, p: T -> bool)
    requires n <= |xs|
    ensures forall x :: x in Filter(xs, n, p) <==> x in xs[..n] && p(x)
  {
    if n > 0 {
      FilterMembers(xs, n - 1, p);
      assert xs[..n] == xs[..n - 1] + [xs[n - 1]];
    }
  }

  lemma FilterAll<T>(xs: seq<T>, p: T -> bool)
    ensures forall x :: x in Filter(xs, |xs|, p) <==> x in xs && p(x)
  {
    FilterMembers(xs, |xs|, p);
    assert xs[..|xs|] == xs;
  }

  lemma SortMembers<T>(xs: seq<T>, leq: (T, T) -> bool)
    ensures forall x :: x in Sort(xs, leq) <==> x in xs
    ensures |Sort(xs, leq)| == |xs|
  {
    var r := Sort(xs, leq);
    assert |multiset(r)| == |multiset(xs)|;
    forall x ensures x in r <==> x in xs {
      assert x in r <==> x in multiset(r);
      assert x in xs <==> x in multiset(xs);
    }
  }

  /** Summing after a filter is summing a function that vanishes elsewhere. */
  lemma {:induction false} SumFilter<T>(xs: seq<T>, n: nat, p: T -> bool, f: T -> int, g: T -> int)
    requires n <= |xs| && forall x | x in xs :: g(x) == if p(x) then f(x) else 0
    ensures Sum(Filter(xs, n, p), f) == SumUpTo(xs, n, g)
  {
    if n > 0 {
      SumFilter(xs, n - 1, p, f, g);
      if p(xs[n - 1]) {
        SumAppend(Filter(xs, n - 1, p), xs[n - 1], f);
      } else {
        assert Filter(xs, n, p) == Filter(xs, n - 1, p);
      }
    }
  }

  // ----- Stable sort -----

  ghost predicate TotalPreorder<T(!new)>(leq: (T, T) -> bool) {
    && (forall x, y :: leq(x, y) || leq(y, x))
    && (forall x, y, z :: leq(x, y) && leq(y, z) ==> leq(x, z))
  }

  ghost predicate SortedBy<T>(xs: seq<T>, leq: (T, T) -> bool) {
    forall i, j | 0 <= i < j < |xs| :: leq(xs[i], xs[j])
  }

  function Insert<T>(xs: seq<T>, x: T, leq: (T, T) -> bool): (r: seq<T>)
    ensures multiset(r) == multiset(xs) + multiset{x}
  {
    if xs == [] || leq(xs[|xs| - 1], x) then xs + [x]
    else
      assert xs == xs[..|xs| - 1] + [xs[|xs| - 1]];
      Insert(xs[..|xs| - 1], x, leq) + [xs[|xs| - 1]]
  }

  /** Insertion sort of the first `n` elements. */
  function SortUpTo<T>(xs: seq<T>, n: nat, leq: (T, T) -> bool): (r: seq<T>)
    requires n <= |xs|
    ensures multiset(r) == multiset(xs[..n])
  {
    if n == 0 then []
    else
      assert xs[..n] == xs[..n - 1] + [xs[n - 1]];
      Insert(SortUpTo(xs, n - 1, leq), xs[n - 1], leq)
  }

  function Sort<T>(xs: seq<T>, leq: (T, T) -> bool): (r: seq<T>)
    ensures multiset(r) == multiset(xs)
  {
    assert xs[..|xs|] == xs;
    SortUpTo(xs, |xs|, leq)
  }

  lemma {:induction false} InsertSorted<T(!new)>(xs: seq<T>, x: T, leq: (T, T) -> bool)
    requires TotalPreorder(leq) && SortedBy(xs, leq)
    ensures SortedBy(Insert(xs, x, leq), leq)
  {
    if xs != [] && !leq(xs[|xs| - 1], x) {
      var init, last := xs[..|xs| - 1], xs[|xs| - 1];
      InsertSorted(init, x, leq);
      var r := Insert(init, x, leq);
      forall i | 0 <= i < |r| ensures leq(r[i], last) {
        assert r[i] in multiset(r);
        assert r[i] == x || r[i] in init;
      }
    } else if xs != [] {
      assert forall i | 0 <= i < |xs| :: leq(xs[i], x);
    }
  }

  lemma {:induction false} SortSorted<T(!new)>(xs: seq<T>, n: nat, leq: (T, T) -> bool)
    requires n <= |xs| && TotalPreorder(leq)
    ensures SortedBy(SortUpTo(xs, n, leq), leq)
  {
    if n > 0 {
      SortSorted(xs, n - 1, leq);
      InsertSorted(SortUpTo(xs, n - 1, leq), xs[n - 1], leq);
    }
  }

  lemma {:induction false} SumInsert<T>(xs: seq<T>, x: T, leq: (T, T) -> bool, f: T -> int)
    ensures Sum(Insert(xs, x, leq), f) == Sum(xs, f) + f(x)
  {
    if xs == [] || leq(xs[|xs| - 1], x) {
      SumAppend(xs, x, f);
    } else {
      var init, last := xs[..|xs| - 1], xs[|xs| - 1];
      SumInsert(init, x, leq, f);
      SumAppend(Insert(init, x, leq), last, f);
      SumAppend(init, last, f);
      assert xs == init + [last];
    }
  }

  /** Sorting does not change a sum. */
  lemma {:induction false} SumSort<T>(xs: seq<T>, n: nat, leq: (T, T) -> bool, f: T -> int)
    requires n <= |xs|
    ensures Sum(SortUpTo(xs, n, leq), f) == SumUpTo(xs, n, f)
  {
    if n > 0 {
      SumSort(xs, n - 1, leq, f);
      SumInsert(SortUpTo(xs, n - 1, leq), xs[n - 1], leq, f);
    }
  }

  // ----- Keys -----

  ghost predicate DistinctBy<T, K>(xs: seq<T>, key: T -> K) {
    forall i, j | 0 <= i < j < |xs| :: key(xs[i]) != key(xs[j])
  }

  function HasKey<T, K(==)>(key: T -> K, k: K): T -> int {
    (x: T) => if key(x) == k then 1 else 0
  }

  lemma {:induction false} CountOnce<T, K>(xs: seq<T>, n: nat, key: T -> K, k: K, f: T -> int)
    requires DistinctBy(xs, key) && n <= |xs|
    requires forall x | x in xs :: f(x) == 0 || (f(x) == 1 && key(x) == k)
    ensures 0 <= SumUpTo(xs, n, f) <= 1
    ensures (forall i | 0 <= i < n :: key(xs[i]) != k) ==> SumUpTo(xs, n, f) == 0
  {
    if n > 0 {
      CountOnce(xs, n - 1, key, k, f);
    }
  }

  lemma {:induction false} CountTwice<T, K>(xs: seq<T>, n: nat, i: nat, j: nat, key: T -> K)
    requires i < j < |xs| && n <= |xs| && key(xs[i]) == key(xs[j])
    ensures SumUpTo(xs, n, HasKey(key, key(xs[i]))) >= (if n > j then 2 else if n > i then 1 else 0)
  {
    if n > 0 {
      CountTwice(xs, n - 1, i, j, key);
    }
  }

  /** Filtering and sorting repeat no key that was not repeated. */
  lemma SortFilterDistinct<T, K>(xs: seq<T>, p: T -> bool, leq: (T, T) -> bool, key: T -> K)
    requires DistinctBy(xs, key)
    ensures DistinctBy(Sort(Filter(xs, |xs|, p), leq), key)
  {
    var kept := Filter(xs, |xs|, p);
    var r := Sort(kept, leq);
    forall i, j | 0 <= i < j < |r| ensures key(r[i]) != key(r[j]) {
      var k := key(r[i]);
      if key(r[j]) == k {
        CountTwice(r, |r|, i, j, key);
        SumSort(kept, |kept|, leq, HasKey(key, k));
        var f := (x: T) => if p(x) then HasKey(key, k)(x) else 0;
        SumFilter(xs, |xs|, p, HasKey(key, k), f);
        CountOnce(xs, |xs|, key, k, f);
      }
    }
  }

  // ----- Order kept by filtering and sorting -----

  /** `x` comes before `y`. */
  predicate ComesBefore<T(==)>(xs: seq<T>, x: T, y: T) {
    exists p, q :: 0 <= p < q < |xs| && xs[p] == x && xs[q] == y
  }

  lemma BeforeAppend<T>(xs: seq<T>, ys: seq<T>, x: T, y: T)
    requires ComesBefore(xs, x, y) || (x in xs && y in ys)
    ensures ComesBefore(xs + ys, x, y)
  {
    var zs := xs + ys;
    if ComesBefore(xs, x, y) {
      var p, q :| 0 <= p < q < |xs| && xs[p] == x && xs[q] == y;
      assert zs[p] == x && zs[q] == y;
    } else {
      var p :| 0 <= p < |xs| && xs[p] == x;
      var q :| 0 <= q < |ys| && ys[q] == y;
      assert zs[p] == x && zs[|xs| + q] == y;
    }
  }

  lemma {:induction false} FilterBefore<T>(xs: seq<T>, n: nat, p: T -> bool, i: nat, j: nat)
    requires i < j < n <= |xs| && p(xs[i]) && p(xs[j])
    ensures ComesBefore(Filter(xs, n, p), xs[i], xs[j])
    decreases n
  {
    var kept := Filter(xs, n - 1, p);
    if j < n - 1 {
      FilterBefore(xs, n - 1, p, i, j);
      BeforeAppend(kept, if p(xs[n - 1]) then [xs[n - 1]] else [], xs[i], xs[j]);
    } else {
      FilterMembers(xs, n - 1, p);
      assert xs[i] == xs[..n - 1][i];
      BeforeAppend(kept, [xs[n - 1]], xs[i], xs[j]);
    }
  }

  lemma InsertHas<T>(xs: seq<T>, x: T, leq: (T, T) -> bool)
    ensures forall y :: y in Insert(xs, x, leq) <==> y in xs || y == x
  {
    var r := Insert(xs, x, leq);
    forall y ensures y in r <==> y in xs || y == x {
      assert y in r <==> y in multiset(r);
      assert y in xs <==> y in multiset(xs);
    }
  }

  /** Inserting keeps the order there was, and goes after whatever does not exceed the newcomer. */
  lemma {:induction false} InsertBefore<T>(xs: seq<T>, x: T, leq: (T, T) -> bool, a: T, b: T)
    requires ComesBefore(xs, a, b) || (a in xs && b == x && leq(a, x))
    ensures ComesBefore(Insert(xs, x, leq), a, b)
  {
    if xs == [] || leq(xs[|xs| - 1], x) {
      BeforeAppend(xs, [x], a, b);
    } else {
      var init, last := xs[..|xs| - 1], xs[|xs| - 1];
      var r := Insert(init, x, leq);
      InsertHas(init, x, leq);
      if ComesBefore(xs, a, b) {
        var p, q :| 0 <= p < q < |xs| && xs[p] == a && xs[q] == b;
        assert init[p] == a;
        if q < |xs| - 1 {
          assert init[q] == b;
          InsertBefore(init, x, leq, a, b);
        }
      } else {
        var p :| 0 <= p < |xs| && xs[p] == a;
        assert init[p] == a;
        InsertBefore(init, x, leq, a, b);
      }
      BeforeAppend(r, [last], a, b);
    }
  }

  /** The sort is stable: what does not exceed a later element stays before it. */
  lemma {:induction false} SortBefore<T>(xs: seq<T>, n: nat, leq: (T, T) -> bool, i: nat, j: nat)
    requires i < j < n <= |xs| && leq(xs[i], xs[j])
    ensures ComesBefore(SortUpTo(xs, n, leq), xs[i], xs[j])
    decreases n
  {
    var sorted := SortUpTo(xs, n - 1, leq);
    if j < n - 1 {
      SortBefore(xs, n - 1, leq, i, j);
    } else {
      assert xs[i] == xs[..n - 1][i];
      assert xs[i] in multiset(xs[..n - 1]);
      assert xs[i] in multiset(sorted);
    }
    InsertBefore(sorted, xs[n - 1], leq, xs[i], xs[j]);
  }

  // ----- Mapping -----

  function Mapped<T, U>(xs: seq<T>, f: T -> U): (r: seq<U>)
    ensures |r| == |xs| && forall i | 0 <= i < |xs| :: r[i] == f(xs[i])
  {
    seq(|xs|, i requires 0 <= i < |xs| => f(xs[i]))
  }

  lemma MappedAppend<T, U>(xs: seq<T>, ys: seq<T>, f: T -> U)
    ensures Mapped(xs + ys, f) == Mapped(xs, f) + Mapped(ys, f)
  {
    var a, b := Mapped(xs + ys, f), Mapped(xs, f) + Mapped(ys, f);
    assert |a| == |b|;
    forall i | 0 <= i < |a| ensures a[i] == b[i] {
    }
  }

  lemma {:induction false} FilterMapped<T(!new)>(xs: seq<T>, n: nat, p: T -> bool, f: T -> T)
    requires n <= |xs| && forall x :: p(f(x)) == p(x)
    ensures Filter(Mapped(xs, f), n, p) == Mapped(Filter(xs, n, p), f)
  {
    if n > 0 {
      FilterMapped(xs, n - 1, p, f);
      var more := if p(xs[n - 1]) then [xs[n - 1]] else [];
      MappedAppend(Filter(xs, n - 1, p), more, f);
      assert Mapped(more, f) == if p(xs[n - 1]) then [f(xs[n - 1])] else [];
    }
  }

  /** The comparison does not notice the mapping. */
  ghost predicate Unseen<T(!new)>(leq: (T, T) -> bool, f: T -> T) {
    forall a, b :: leq(f(a), f(b)) == leq(a, b)
  }

  lemma {:induction false} InsertMapped<T(!new)>(xs: seq<T>, x: T, leq: (T, T) -> bool, f: T -> T)
    requires Unseen(leq, f)
    ensures Insert(Mapped(xs, f), f(x), leq) == Mapped(Insert(xs, x, leq), f)
  {
    if xs == [] || leq(xs[|xs| - 1], x) {
      MappedAppend(xs, [x], f);
      assert Mapped([x], f) == [f(x)];
    } else {
      var init, last := xs[..|xs| - 1], xs[|xs| - 1];
      InsertMapped(init, x, leq, f);
      MappedAppend(Insert(init, x, leq), [last], f);
      assert Mapped([last], f) == [f(last)];
      assert Mapped(xs, f)[..|xs| - 1] == Mapped(init, f);
    }
  }

  /** A mapping that the comparison does not see commutes with sorting. */
  lemma {:induction false} SortMapped<T(!new)>(xs: seq<T>, n: nat, leq: (T, T) -> bool, f: T -> T)
    requires n <= |xs| && Unseen(leq, f)
    ensures SortUpTo(Mapped(xs, f), n, leq) == Mapped(SortUpTo(xs, n, leq), f)
  {
    hide Unseen, Insert;
    if n > 0 {
      SortMapped(xs, n - 1, leq, f);
      InsertMapped(SortUpTo(xs, n - 1, leq), xs[n - 1], leq, f);
    }
  }
}
