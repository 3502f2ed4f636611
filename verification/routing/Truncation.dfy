/** Keeping only the best candidates of each endpoint pair while collecting does not change the selection. */
module Truncation {
  import opened Sorting
  import opened Selection

  function Concat(groups: seq<seq<Candidate>>): seq<Candidate> {
    if |groups| == 0 then [] else groups[0] + Concat(groups[1..])
  }

  /** What the streaming loop leaves of each pair: its best `k` candidates, sorted. */
  function Best(group: seq<Candidate>, k: nat): seq<Candidate> {
    Take(Sort(group, CandidateOrder), k)
  }

  function Truncated(groups: seq<seq<Candidate>>, k: nat): seq<Candidate> {
    if |groups| == 0 then [] else Best(groups[0], k) + Truncated(groups[1..], k)
  }

  /** The candidates of a pair are trips of one line, each once; across pairs a trip keeps its line. */
  ghost predicate Pair(group: seq<Candidate>) {
    forall i, j :: 0 <= i < j < |group| ==>
      group[i].tripId != group[j].tripId && group[i].routeId == group[j].routeId
  }

  ghost predicate Pairs(groups: seq<seq<Candidate>>) {
    && (forall g :: g in groups ==> Pair(g))
    && (forall g, h, x, y :: g in groups && h in groups && x in g && y in h && x.tripId == y.tripId ==>
          x.routeId == y.routeId)
  }

  // ---------------------------------------------------------------- tagging

  /** The candidates of a pair, in order. */
  function Ordered(group: seq<Candidate>): seq<Candidate> {
    Sort(group, CandidateOrder)
  }

  /** Candidates in order, the first `k` marked as kept and the others as truncated. */
  function Tag(sorted: seq<Candidate>, k: nat, n: nat): (r: seq<Tagged>)
    ensures |r| == |sorted| && forall i :: 0 <= i < |sorted| ==> r[i] == Tagged(sorted[i], i < k, n)
  {
    seq(|sorted|, i requires 0 <= i < |sorted| => Tagged(sorted[i], i < k, n))
  }

  function TagAll(groups: seq<seq<Candidate>>, k: nat, n: nat): seq<Tagged> {
    if |groups| == 0 then [] else Tag(Ordered(groups[0]), k, n) + TagAll(groups[1..], k, n + 1)
  }

  lemma StripAppend(xs: seq<Tagged>, ys: seq<Tagged>)
    ensures Strip(xs + ys) == Strip(xs) + Strip(ys)
  {
  }

  lemma {:induction false} FilterAll(xs: seq<Tagged>, kept: bool)
    requires forall i :: 0 <= i < |xs| ==> xs[i].kept == kept
    ensures Filter(xs, IsKept) == if kept then xs else []
  {
    if |xs| > 0 {
      FilterAll(xs[1..], kept);
    }
  }

  /** Stripped of its tags, a tagged pair is the sorted pair; its kept part is what truncation leaves. */
  lemma TagFits(sorted: seq<Candidate>, k: nat, n: nat)
    ensures Strip(Tag(sorted, k, n)) == sorted
    ensures Strip(Filter(Tag(sorted, k, n), IsKept)) == Take(sorted, k)
  {
    var tagged, m := Tag(sorted, k, n), |Take(sorted, k)|;
    var front, back := tagged[..m], tagged[m..];
    assert tagged == front + back;
    FilterAppend(front, back, IsKept);
    FilterAll(front, true);
    FilterAll(back, false);
    assert front + [] == front;
    assert Strip(front) == Take(sorted, k);
  }

  lemma {:induction false} TruncatedIsKept(groups: seq<seq<Candidate>>, k: nat, n: nat)
    ensures Strip(Filter(TagAll(groups, k, n), IsKept)) == Truncated(groups, k)
  {
    if |groups| > 0 {
      TruncatedIsKept(groups[1..], k, n + 1);
      var tagged, rest := Tag(Ordered(groups[0]), k, n), TagAll(groups[1..], k, n + 1);
      TagFits(Ordered(groups[0]), k, n);
      FilterAppend(tagged, rest, IsKept);
      StripAppend(Filter(tagged, IsKept), Filter(rest, IsKept));
    }
  }

  lemma {:induction false} SortedGroups(groups: seq<seq<Candidate>>, k: nat, n: nat)
    ensures Sort(Strip(TagAll(groups, k, n)), CandidateOrder) == Sort(Concat(groups), CandidateOrder)
  {
    CandidateOrderTotal();
    if |groups| > 0 {
      var rest := TagAll(groups[1..], k, n + 1);
      SortedGroups(groups[1..], k, n + 1);
      TagFits(Ordered(groups[0]), k, n);
      StripAppend(Tag(Ordered(groups[0]), k, n), rest);
      SortFront(groups[0], Strip(rest), CandidateOrder);
      SortBack(groups[0], Strip(rest), CandidateOrder);
      SortBack(groups[0], Concat(groups[1..]), CandidateOrder);
    }
  }

  /** Tags do not take part in sorting. */
  lemma {:induction false} StripSort(xs: seq<Tagged>)
    ensures Strip(Sort(xs, TaggedOrder)) == Sort(Strip(xs), CandidateOrder)
  {
    if |xs| > 0 {
      StripSort(xs[1..]);
      assert Strip(xs)[1..] == Strip(xs[1..]);
      StripInsert(xs[0], Sort(xs[1..], TaggedOrder));
    }
  }

  lemma {:induction false} StripInsert(x: Tagged, xs: seq<Tagged>)
    ensures Strip(Insert(x, xs, TaggedOrder)) == Insert(x.candidate, Strip(xs), CandidateOrder)
  {
    if |xs| > 0 && !TaggedOrder(x, xs[0]) {
      StripInsert(x, xs[1..]);
      assert Strip(xs)[1..] == Strip(xs[1..]);
    }
  }

  lemma TaggedOrderTotal()
    ensures TotalPreorder(TaggedOrder)
  {
    CandidateOrderTotal();
    hide CandidateOrder;
    forall x, y, z
      ensures TaggedOrder(x, y) || TaggedOrder(y, x)
      ensures TaggedOrder(x, y) && TaggedOrder(y, z) ==> TaggedOrder(x, z)
    {
      assert CandidateOrder(x.candidate, y.candidate) || CandidateOrder(y.candidate, x.candidate);
      assert CandidateOrder(x.candidate, y.candidate) && CandidateOrder(y.candidate, z.candidate) ==>
          CandidateOrder(x.candidate, z.candidate);
    }
  }

  // ---------------------------------------------------------------- truncated candidates are outnumbered

  /** `t` is the element of pair `n` at place `i` of its order. */
  ghost predicate PlacedAt(t: Tagged, groups: seq<seq<Candidate>>, k: nat, first: nat, n: nat, i: nat) {
    && n < |groups| && i < |Ordered(groups[n])|
    && t == Tagged(Ordered(groups[n])[i], i < k, first + n)
  }

  lemma {:induction false} TagAllPlaces(groups: seq<seq<Candidate>>, k: nat, first: nat, t: Tagged)
      returns (n: nat, i: nat)
    requires t in TagAll(groups, k, first)
    ensures PlacedAt(t, groups, k, first, n, i)
  {
    hide Ordered;
    var tagged := Tag(Ordered(groups[0]), k, first);
    if t in tagged {
      var p :| 0 <= p < |tagged| && tagged[p] == t;
      n, i := 0, p;
    } else {
      n, i := TagAllPlaces(groups[1..], k, first + 1, t);
      n := n + 1;
    }
  }

  lemma {:induction false} TagAllHas(groups: seq<seq<Candidate>>, k: nat, first: nat, n: nat, i: nat)
    requires n < |groups| && i < |Ordered(groups[n])|
    ensures Tagged(Ordered(groups[n])[i], i < k, first + n) in TagAll(groups, k, first)
  {
    hide Ordered;
    if n == 0 {
      assert Tag(Ordered(groups[0]), k, first)[i] in Tag(Ordered(groups[0]), k, first);
    } else {
      TagAllHas(groups[1..], k, first + 1, n - 1, i);
    }
  }

  /** The sorted pair is still a pair, and its order is strict. */
  lemma SortedPair(group: seq<Candidate>)
    requires Pair(group)
    ensures var sorted := Ordered(group);
            && Pair(sorted)
            && forall i, j :: 0 <= i < j < |sorted| ==> !CandidateOrder(sorted[j], sorted[i])
  {
    var sorted := Sort(group, CandidateOrder);
    CandidateOrderTotal();
    SortSorts(group, CandidateOrder);
    PermutedPair(group, sorted);
    forall i, j | 0 <= i < j < |sorted|
      ensures !CandidateOrder(sorted[j], sorted[i])
    {
      assert CandidateOrder(sorted[i], sorted[j]);
      assert sorted[i].tripId != sorted[j].tripId;
    }
  }

  lemma {:induction false} PermutedPair(xs: seq<Candidate>, ys: seq<Candidate>)
    requires Pair(xs) && multiset(xs) == multiset(ys)
    ensures Pair(ys)
  {
    forall i, j | 0 <= i < j < |ys|
      ensures ys[i].tripId != ys[j].tripId && ys[i].routeId == ys[j].routeId
    {
      assert ys[i] in multiset(xs) && ys[j] in multiset(xs);
      var a :| 0 <= a < |xs| && xs[a] == ys[i];
      var b :| 0 <= b < |xs| && xs[b] == ys[j];
      if a == b {
        OnceEach(xs, xs[a]);
        OccursTwice(ys, i, j);
        assert false;
      }
    }
  }

  /** The identities of the first `m` candidates of a pair. */
  function FirstIdentities(xs: seq<Candidate>, m: nat): set<Identity>
    requires m <= |xs|
  {
    set i | 0 <= i < m :: IdentityOf(xs[i])
  }

  lemma {:induction false} FirstIdentitiesDistinct(xs: seq<Candidate>, m: nat)
    requires Pair(xs) && m <= |xs|
    ensures |FirstIdentities(xs, m)| == m
  {
    if m > 0 {
      FirstIdentitiesDistinct(xs, m - 1);
      OneMoreIdentity(xs, m - 1);
      hide FirstIdentities;
      assert |FirstIdentities(xs, m - 1) + {IdentityOf(xs[m - 1])}| == m;
    }
  }

  lemma OneMoreIdentity(xs: seq<Candidate>, m: nat)
    requires Pair(xs) && m < |xs|
    ensures IdentityOf(xs[m]) !in FirstIdentities(xs, m)
    ensures FirstIdentities(xs, m + 1) == FirstIdentities(xs, m) + {IdentityOf(xs[m])}
  {
    forall id
      ensures id in FirstIdentities(xs, m + 1) <==> id in FirstIdentities(xs, m) || id == IdentityOf(xs[m])
    {
    }
  }

  lemma {:induction false} TruncatedOutnumbered(groups: seq<seq<Candidate>>, k: nat, sorted: seq<Tagged>, p: nat)
    requires Pairs(groups) && k > 0 && sorted == Sort(TagAll(groups, k, 0), TaggedOrder)
    requires p < |sorted| && !sorted[p].kept
    ensures Outnumbered(sorted, k, p)
  {
    TaggedOrderTotal();
    SortSorts(TagAll(groups, k, 0), TaggedOrder);
    SameMembers(sorted, TagAll(groups, k, 0));
    var n, i := TagAllPlaces(groups, k, 0, sorted[p]);
    var group := Ordered(groups[n]);
    assert groups[n] in groups;
    SortedPair(groups[n]);
    hide Ordered, CandidateOrder, Sort, TagAll, Pairs, TotalPreorder, SortedBy;
    forall j: nat | j < k
      ensures Earlier(sorted, p, Tagged(group[j], true, n))
    {
      KeptEarlier(groups, k, sorted, p, n, i, j);
    }
    EnoughEarlier(group, k, sorted, p, n, i);
  }

  ghost predicate Earlier(sorted: seq<Tagged>, p: nat, t: Tagged)
    requires p <= |sorted|
  {
    exists m :: 0 <= m < p && sorted[m] == t
  }

  /** A candidate with the first `k` of its pair before it is outnumbered. */
  lemma EnoughEarlier(group: seq<Candidate>, k: nat, sorted: seq<Tagged>, p: nat, n: nat, i: nat)
    requires Pair(group) && 0 < k <= i < |group| && p < |sorted| && sorted[p].candidate == group[i]
    requires forall j: nat :: j < k ==> Earlier(sorted, p, Tagged(group[j], true, n))
    ensures Outnumbered(sorted, k, p)
  {
    FirstIdentitiesDistinct(group, k);
    forall id | id in FirstIdentities(group, k)
      ensures KeptBefore(sorted, p, id)
    {
      var j: nat :| j < k && IdentityOf(group[j]) == id;
      assert Earlier(sorted, p, Tagged(group[j], true, n));
    }
    assert AllKeptBefore(sorted, p, FirstIdentities(group, k));
    assert Earlier(sorted, p, Tagged(group[0], true, n));
    assert group[0].routeId == group[i].routeId;
  }

  lemma {:induction false} KeptEarlier(groups: seq<seq<Candidate>>, k: nat, sorted: seq<Tagged>, p: nat, n: nat, i: nat,
                                       j: nat)
    requires sorted == Sort(TagAll(groups, k, 0), TaggedOrder) && p < |sorted|
    requires PlacedAt(sorted[p], groups, k, 0, n, i) && j < k <= i
    requires !CandidateOrder(Ordered(groups[n])[i], Ordered(groups[n])[j])
    ensures Earlier(sorted, p, Tagged(Ordered(groups[n])[j], true, n))
  {
    hide Ordered, CandidateOrder;
    var all := TagAll(groups, k, 0);
    TaggedOrderTotal();
    SortSorts(all, TaggedOrder);
    TagAllHas(groups, k, 0, n, j);
    hide Sort, TagAll, TotalPreorder, SortedBy;
    SameMembers(sorted, all);
    EarlierInOrder(sorted, p, Tagged(Ordered(groups[n])[j], true, n));
  }

  lemma EarlierInOrder(sorted: seq<Tagged>, p: nat, t: Tagged)
    requires SortedBy(sorted, TaggedOrder) && p < |sorted|
    requires t in sorted && t != sorted[p] && !TaggedOrder(sorted[p], t)
    ensures Earlier(sorted, p, t)
  {
    hide CandidateOrder;
    var m :| 0 <= m < |sorted| && sorted[m] == t;
    assert m <= p;
  }

  lemma {:induction false} TripsKeepLines(groups: seq<seq<Candidate>>, k: nat, sorted: seq<Tagged>)
    requires Pairs(groups) && sorted == Sort(TagAll(groups, k, 0), TaggedOrder)
    ensures OneLinePerTrip(sorted)
  {
    TaggedOrderTotal();
    SortSorts(TagAll(groups, k, 0), TaggedOrder);
    forall a, b | 0 <= a < |sorted| && 0 <= b < |sorted|
                  && sorted[a].candidate.tripId == sorted[b].candidate.tripId
      ensures sorted[a].candidate.routeId == sorted[b].candidate.routeId
    {
      InSomeGroup(groups, k, sorted, a);
      InSomeGroup(groups, k, sorted, b);
    }
  }

  lemma {:induction false} InSomeGroup(groups: seq<seq<Candidate>>, k: nat, sorted: seq<Tagged>, a: nat)
    requires multiset(sorted) == multiset(TagAll(groups, k, 0)) && a < |sorted|
    ensures exists g :: g in groups && sorted[a].candidate in g
  {
    assert sorted[a] in multiset(sorted);
    var n, i := TagAllPlaces(groups, k, 0, sorted[a]);
    CandidateOrderTotal();
    SortSorts(groups[n], CandidateOrder);
    assert sorted[a].candidate in multiset(groups[n]);
    assert groups[n] in groups;
  }

  /** Truncating every pair to the limit while collecting gives the selection of all candidates. */
  lemma TruncationHarmless(groups: seq<seq<Candidate>>, k: nat)
    requires Pairs(groups) && k > 0
    ensures Select(Sort(Truncated(groups, k), CandidateOrder), k) == Select(Sort(Concat(groups), CandidateOrder), k)
  {
    var tagged := TagAll(groups, k, 0);
    var sorted := Sort(tagged, TaggedOrder);
    forall p | 0 <= p < |sorted| && !sorted[p].kept
      ensures Outnumbered(sorted, k, p)
    {
      TruncatedOutnumbered(groups, k, sorted, p);
    }
    TripsKeepLines(groups, k, sorted);
    DroppingChangesNothing(sorted, k);
    TaggedOrderTotal();
    FilterSort(tagged, TaggedOrder, IsKept);
    StripSort(tagged);
    StripSort(Filter(tagged, IsKept));
    SortedGroups(groups, k, 0);
    TruncatedIsKept(groups, k, 0);
  }
}
