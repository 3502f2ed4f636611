/** The stable sort of the standard library, as a function of the sequence and the order. */
module Sorting {
  ghost predicate TotalPreorder<T(!new)>(leq: (T, T) -> bool) {
    && (forall x, y :: leq(x, y) || leq(y, x))
    && (forall x, y, z :: leq(x, y) && leq(y, z) ==> leq(x, z))
  }

  ghost predicate SortedBy<T>(xs: seq<T>, leq: (T, T) -> bool) {
    forall i, j :: 0 <= i < j < |xs| ==> leq(xs[i], xs[j])
  }

  /** Among the elements of `xs`, those that are equal in the order are equal. */
  ghost predicate Separates<T>(xs: seq<T>, leq: (T, T) -> bool) {
    forall x, y :: x in xs && y in xs && leq(x, y) && leq(y, x) ==> x == y
  }

  /** Put `x` before the first element that is not smaller. */
  function Insert<T>(x: T, xs: seq<T>, leq: (T, T) -> bool): seq<T> {
    if |xs| == 0 || leq(x, xs[0]) then [x] + xs else [xs[0]] + Insert(x, xs[1..], leq)
  }

  /** Equal elements keep their order. */
  function Sort<T>(xs: seq<T>, leq: (T, T) -> bool): seq<T> {
    if |xs| == 0 then [] else Insert(xs[0], Sort(xs[1..], leq), leq)
  }

  lemma {:induction false} InsertSorts<T(!new)>(x: T, xs: seq<T>, leq: (T, T) -> bool)
    requires TotalPreorder(leq) && SortedBy(xs, leq)
    ensures SortedBy(Insert(x, xs, leq), leq)
    ensures multiset(Insert(x, xs, leq)) == multiset{x} + multiset(xs)
  {
    if |xs| == 0 || leq(x, xs[0]) {
    } else {
      var rest := Insert(x, xs[1..], leq);
      Tail(xs, leq);
      InsertSorts(x, xs[1..], leq);
      assert forall y :: y in xs[1..] ==> leq(xs[0], y);
      assert Insert(x, xs, leq) == [xs[0]] + rest;
      assert leq(xs[0], x);
      hide Insert, TotalPreorder;
      HeadFits(xs[0], x, xs[1..], rest, leq);
    }
  }

  lemma HeadFits<T>(head: T, x: T, tail: seq<T>, rest: seq<T>, leq: (T, T) -> bool)
    requires SortedBy(rest, leq) && multiset(rest) == multiset{x} + multiset(tail)
    requires leq(head, x) && forall y :: y in tail ==> leq(head, y)
    ensures SortedBy([head] + rest, leq) && multiset([head] + rest) == multiset{x} + multiset([head] + tail)
  {
    forall j | 0 <= j < |rest|
      ensures leq(head, rest[j])
    {
      assert rest[j] in multiset(rest);
    }
  }

  lemma {:induction false} SortSorts<T(!new)>(xs: seq<T>, leq: (T, T) -> bool)
    requires TotalPreorder(leq)
    ensures SortedBy(Sort(xs, leq), leq)
    ensures multiset(Sort(xs, leq)) == multiset(xs)
    ensures |Sort(xs, leq)| == |xs|
  {
    if |xs| > 0 {
      SortSorts(xs[1..], leq);
      InsertSorts(xs[0], Sort(xs[1..], leq), leq);
      assert xs == [xs[0]] + xs[1..];
    }
    assert |Sort(xs, leq)| == |multiset(Sort(xs, leq))|;
  }

  /** What is sorted already stays as it is. */
  lemma {:induction false} SortFixed<T>(xs: seq<T>, leq: (T, T) -> bool)
    requires SortedBy(xs, leq)
    ensures Sort(xs, leq) == xs
  {
    if |xs| > 0 {
      SortFixed(xs[1..], leq);
      assert |xs| > 1 ==> xs[1..][0] == xs[1];
    }
  }

  lemma SameHead<T(!new)>(xs: seq<T>, ys: seq<T>, leq: (T, T) -> bool)
    requires SortedBy(xs, leq) && SortedBy(ys, leq) && multiset(xs) == multiset(ys) && |xs| > 0 && |ys| > 0
    requires Separates(xs, leq) && TotalPreorder(leq)
    ensures xs[0] == ys[0]
  {
    assert xs[0] in multiset(ys) && ys[0] in multiset(xs);
    assert leq(xs[0], xs[0]) && leq(ys[0], ys[0]);
  }

  lemma Tail<T(!new)>(xs: seq<T>, leq: (T, T) -> bool)
    requires |xs| > 0
    ensures xs == [xs[0]] + xs[1..] && multiset(xs[1..]) == multiset(xs) - multiset{xs[0]}
    ensures SortedBy(xs, leq) ==> SortedBy(xs[1..], leq)
    ensures Separates(xs, leq) ==> Separates(xs[1..], leq)
  {
    assert xs == [xs[0]] + xs[1..];
  }

  lemma {:induction false} SortedUnique<T(!new)>(xs: seq<T>, ys: seq<T>, leq: (T, T) -> bool)
    requires SortedBy(xs, leq) && SortedBy(ys, leq) && multiset(xs) == multiset(ys)
    requires Separates(xs, leq) && TotalPreorder(leq)
    ensures xs == ys
  {
    assert |xs| == |multiset(xs)| == |multiset(ys)| == |ys|;
    if |xs| > 0 {
      SameHead(xs, ys, leq);
      Tail(xs, leq);
      Tail(ys, leq);
      hide SortedBy, Separates, TotalPreorder;
      SortedUnique(xs[1..], ys[1..], leq);
    }
  }

  /** When the order separates the elements, the result does not depend on the order they came in. */
  lemma SortOfPermutation<T(!new)>(xs: seq<T>, ys: seq<T>, leq: (T, T) -> bool)
    requires TotalPreorder(leq) && multiset(xs) == multiset(ys) && Separates(xs, leq)
    ensures Sort(xs, leq) == Sort(ys, leq)
  {
    SortSorts(xs, leq);
    SortSorts(ys, leq);
    forall x | x in Sort(xs, leq)
      ensures x in xs
    {
      assert x in multiset(Sort(xs, leq));
    }
    SortedUnique(Sort(xs, leq), Sort(ys, leq), leq);
  }

  // ---------------------------------------------------------------- sorting in pieces

  function Filter<T>(xs: seq<T>, p: T -> bool): seq<T> {
    if |xs| == 0 then [] else if p(xs[0]) then [xs[0]] + Filter(xs[1..], p) else Filter(xs[1..], p)
  }

  function Take<T>(xs: seq<T>, n: nat): seq<T> {
    if n <= |xs| then xs[..n] else xs
  }

  lemma {:induction false} FilterMembers<T>(xs: seq<T>, p: T -> bool)
    ensures forall x :: x in Filter(xs, p) <==> x in xs && p(x)
  {
    if |xs| > 0 {
      FilterMembers(xs[1..], p);
      assert forall x :: x in xs <==> x == xs[0] || x in xs[1..];
    }
  }

  lemma {:induction false} FilterInsert<T(!new)>(x: T, xs: seq<T>, leq: (T, T) -> bool, p: T -> bool)
    requires TotalPreorder(leq) && SortedBy(xs, leq)
    ensures Filter(Insert(x, xs, leq), p) == if p(x) then Insert(x, Filter(xs, p), leq) else Filter(xs, p)
  {
    if |xs| > 0 {
      if leq(x, xs[0]) {
        var inserted := [x] + xs;
        assert inserted[1..] == xs;
        FilterMembers(xs, p);
        var kept := Filter(xs, p);
        if |kept| > 0 {
          assert kept[0] in xs;
          assert leq(x, kept[0]);
        }
      } else {
        var inserted := [xs[0]] + Insert(x, xs[1..], leq);
        assert inserted[1..] == Insert(x, xs[1..], leq);
        FilterInsert(x, xs[1..], leq, p);
        assert p(xs[0]) ==> Filter(xs, p)[1..] == Filter(xs[1..], p);
      }
    }
  }

  /** Dropping elements before or after a stable sort is the same. */
  lemma {:induction false} FilterSort<T(!new)>(xs: seq<T>, leq: (T, T) -> bool, p: T -> bool)
    requires TotalPreorder(leq)
    ensures Filter(Sort(xs, leq), p) == Sort(Filter(xs, p), leq)
  {
    if |xs| > 0 {
      FilterSort(xs[1..], leq, p);
      SortSorts(xs[1..], leq);
      FilterInsert(xs[0], Sort(xs[1..], leq), leq, p);
      assert p(xs[0]) ==> Filter(xs, p)[1..] == Filter(xs[1..], p);
    }
  }

  lemma {:induction false} FilterAppend<T>(xs: seq<T>, ys: seq<T>, p: T -> bool)
    ensures Filter(xs + ys, p) == Filter(xs, p) + Filter(ys, p)
  {
    if |xs| == 0 {
      assert xs + ys == ys;
    } else {
      assert (xs + ys)[1..] == xs[1..] + ys;
      FilterAppend(xs[1..], ys, p);
    }
  }

  /** Elements that differ in the order can be inserted in either order. */
  lemma {:induction false} InsertsCommute<T(!new)>(x: T, y: T, xs: seq<T>, leq: (T, T) -> bool)
    requires TotalPreorder(leq) && !leq(y, x)
    ensures Insert(x, Insert(y, xs, leq), leq) == Insert(y, Insert(x, xs, leq), leq)
  {
    if |xs| > 0 && !leq(x, xs[0]) {
      InsertsCommute(x, y, xs[1..], leq);
      assert !leq(y, xs[0]);
    }
  }

  lemma {:induction false} InsertThenSort<T(!new)>(x: T, xs: seq<T>, ys: seq<T>, leq: (T, T) -> bool)
    requires TotalPreorder(leq)
    ensures Sort(Insert(x, xs, leq) + ys, leq) == Insert(x, Sort(xs + ys, leq), leq)
  {
    if |xs| == 0 || leq(x, xs[0]) {
      assert ([x] + xs + ys)[1..] == xs + ys;
      assert [x] + xs + ys == [x] + (xs + ys);
    } else {
      var inner := Insert(x, xs[1..], leq);
      var all := [xs[0]] + inner + ys;
      assert all[1..] == inner + ys && (xs + ys)[1..] == xs[1..] + ys;
      InsertThenSort(x, xs[1..], ys, leq);
      InsertsCommute(xs[0], x, Sort(xs[1..] + ys, leq), leq);
    }
  }

  /** A part that is sorted already sorts like the part it came from. */
  lemma {:induction false} SortFront<T(!new)>(xs: seq<T>, ys: seq<T>, leq: (T, T) -> bool)
    requires TotalPreorder(leq)
    ensures Sort(Sort(xs, leq) + ys, leq) == Sort(xs + ys, leq)
  {
    if |xs| > 0 {
      SortFront(xs[1..], ys, leq);
      InsertThenSort(xs[0], Sort(xs[1..], leq), ys, leq);
      assert (xs + ys)[1..] == xs[1..] + ys;
    } else {
      assert Sort(xs, leq) == [];
    }
  }

  lemma {:induction false} SortBack<T(!new)>(xs: seq<T>, ys: seq<T>, leq: (T, T) -> bool)
    requires TotalPreorder(leq)
    ensures Sort(xs + Sort(ys, leq), leq) == Sort(xs + ys, leq)
  {
    if |xs| > 0 {
      SortBack(xs[1..], ys, leq);
      assert (xs + ys)[1..] == xs[1..] + ys;
      assert (xs + Sort(ys, leq))[1..] == xs[1..] + Sort(ys, leq);
    } else {
      SortSorts(ys, leq);
      SortFixed(Sort(ys, leq), leq);
      assert xs + ys == ys && xs + Sort(ys, leq) == Sort(ys, leq);
    }
  }

  lemma {:induction false} SmallestLast<T(!new)>(xs: seq<T>, x: T, leq: (T, T) -> bool)
    requires SortedBy(xs, leq) && forall y :: y in xs ==> !leq(y, x)
    ensures Sort(xs + [x], leq) == [x] + xs
  {
    if |xs| > 0 {
      assert (xs + [x])[1..] == xs[1..] + [x];
      SmallestLast(xs[1..], x, leq);
      assert xs[0] in xs;
      SortFixed(xs, leq);
      assert Insert(xs[0], xs[1..], leq) == xs by {
        assert |xs| > 1 ==> leq(xs[0], xs[1]);
      }
      assert ([x] + xs[1..])[1..] == xs[1..];
    }
  }

  /** Keeping the best `n` after every addition keeps the best `n` of everything. */
  lemma {:induction false} TakeSorted<T(!new)>(xs: seq<T>, x: T, n: nat, leq: (T, T) -> bool)
    requires TotalPreorder(leq) && SortedBy(xs, leq)
    ensures Take(Sort(Take(xs, n) + [x], leq), n) == Take(Sort(xs + [x], leq), n)
  {
    if |xs| <= n {
      assert Take(xs, n) == xs;
    } else {
      assert Take(xs, n) == xs[..n];
      if n == 0 {
        assert Take(Sort(Take(xs, n) + [x], leq), n) == [] == Take(Sort(xs + [x], leq), n);
      } else if leq(xs[0], x) {
        TakeSorted(xs[1..], x, n - 1, leq);
        HeadStays(xs, x, leq);
        HeadStays(xs[..n], x, leq);
        assert xs[..n][1..] == xs[1..][..n - 1];
        TakeCons(xs[0], Sort(xs[1..] + [x], leq), n);
        TakeCons(xs[0], Sort(xs[1..][..n - 1] + [x], leq), n);
      } else {
        assert forall y :: y in xs ==> leq(xs[0], y) by {
          assert leq(xs[0], xs[0]);
        }
        SmallestLast(xs, x, leq);
        assert forall y :: y in xs[..n] ==> y in xs;
        SmallestLast(xs[..n], x, leq);
        TakeCons(x, xs, n);
        TakeCons(x, xs[..n], n);
        assert xs[..n][..n - 1] == xs[..n - 1];
      }
    }
  }

  lemma TakeCons<T>(x: T, xs: seq<T>, n: nat)
    requires n > 0
    ensures Take([x] + xs, n) == [x] + Take(xs, n - 1)
  {
  }

  lemma HeadStays<T(!new)>(xs: seq<T>, x: T, leq: (T, T) -> bool)
    requires TotalPreorder(leq) && SortedBy(xs, leq) && |xs| > 0 && leq(xs[0], x)
    ensures Sort(xs + [x], leq) == [xs[0]] + Sort(xs[1..] + [x], leq)
  {
    var tail := xs[1..] + [x];
    assert (xs + [x])[1..] == tail;
    HeadLeads(xs, x, leq);
    hide SortedBy, Sort;
    SortSorts(tail, leq);
    hide TotalPreorder;
    SameMembers(Sort(tail, leq), tail);
    StaysInFront(xs[0], Sort(tail, leq), leq);
    SortFirst(xs + [x], leq);
  }

  lemma HeadLeads<T>(xs: seq<T>, x: T, leq: (T, T) -> bool)
    requires SortedBy(xs, leq) && |xs| > 0 && leq(xs[0], x)
    ensures forall y :: y in xs[1..] + [x] ==> leq(xs[0], y)
  {
    forall y | y in xs[1..]
      ensures leq(xs[0], y)
    {
      var i :| 0 < i < |xs| && xs[i] == y;
    }
  }

  lemma SortFirst<T>(xs: seq<T>, leq: (T, T) -> bool)
    requires |xs| > 0
    ensures Sort(xs, leq) == Insert(xs[0], Sort(xs[1..], leq), leq)
  {
  }

  lemma SameMembers<T>(xs: seq<T>, ys: seq<T>)
    requires multiset(xs) == multiset(ys)
    ensures forall x :: x in xs <==> x in ys
  {
    assert forall x :: x in xs <==> x in multiset(xs);
    assert forall x :: x in ys <==> x in multiset(ys);
  }

  lemma StaysInFront<T>(x: T, xs: seq<T>, leq: (T, T) -> bool)
    requires forall y :: y in xs ==> leq(x, y)
    ensures Insert(x, xs, leq) == [x] + xs
  {
  }

  /** The elements of a set, each once, in no particular order. */
  method Elements<T(==)>(s: set<T>) returns (xs: seq<T>)
    ensures forall x :: x in xs <==> x in s
    ensures forall i, j :: 0 <= i < j < |xs| ==> xs[i] != xs[j]
  {
    xs := [];
    var todo := s;
    while todo != {}
      invariant todo <= s
      invariant forall x :: x in xs <==> x in s && x !in todo
      invariant forall i, j :: 0 <= i < j < |xs| ==> xs[i] != xs[j]
      decreases todo
    {
      var x :| x in todo;
      xs := xs + [x];
      todo := todo - {x};
    }
  }

  /** A sorted sequence of distinct elements stays one of distinct elements. */
  lemma DistinctPermuted<T>(xs: seq<T>, ys: seq<T>)
    requires multiset(xs) == multiset(ys)
    requires forall i, j :: 0 <= i < j < |xs| ==> xs[i] != xs[j]
    ensures forall i, j :: 0 <= i < j < |ys| ==> ys[i] != ys[j]
    ensures forall x :: x in ys <==> x in xs
  {
    assert forall x :: x in ys <==> x in multiset(ys);
    assert forall x :: x in xs <==> x in multiset(xs);
    forall i, j | 0 <= i < j < |ys|
      ensures ys[i] != ys[j]
    {
      OnceEach(xs, ys[i]);
      if ys[i] == ys[j] {
        OccursTwice(ys, i, j);
      }
    }
  }

  lemma OccursTwice<T>(xs: seq<T>, i: nat, j: nat)
    requires i < j < |xs| && xs[i] == xs[j]
    ensures multiset(xs)[xs[i]] >= 2
  {
    var front, back := xs[..j], xs[j..];
    assert xs == front + back && front[i] in front && back[0] in back;
    assert multiset(xs)[xs[i]] == multiset(front)[xs[i]] + multiset(back)[xs[i]];
  }

  lemma {:induction false} OnceEach<T>(xs: seq<T>, x: T)
    requires forall i, j :: 0 <= i < j < |xs| ==> xs[i] != xs[j]
    ensures multiset(xs)[x] <= 1
  {
    if |xs| > 0 {
      var front, last := xs[..|xs| - 1], xs[|xs| - 1];
      assert xs == front + [last];
      OnceEach(front, x);
      assert last !in front;
    }
  }

  /** An element of one permutation is found in the other, and what remains of both is a permutation again. */
  lemma Elsewhere<T>(xs: seq<T>, n: nat, ys: seq<T>) returns (i: nat)
    requires n < |xs| && multiset(xs) == multiset(ys)
    ensures i < |ys| && ys[i] == xs[n]
    ensures multiset(xs[..n] + xs[n + 1..]) == multiset(ys[..i] + ys[i + 1..])
    ensures |xs[..n] + xs[n + 1..]| == |xs| - 1
  {
    assert xs[n] in multiset(ys);
    i :| i < |ys| && ys[i] == xs[n];
    WithoutOne(xs, n);
    WithoutOne(ys, i);
  }

  lemma WithoutOne<T>(xs: seq<T>, n: nat)
    requires n < |xs|
    ensures multiset(xs[..n] + xs[n + 1..]) == multiset(xs) - multiset{xs[n]}
  {
    assert xs == xs[..n] + [xs[n]] + xs[n + 1..];
  }
}
