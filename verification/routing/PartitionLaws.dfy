/** Which chain a trip joins, told by the finished chains and the times of their trips alone. */
module PartitionLaws {
  import opened Sorting
  import opened Network
  import opened Partition

  /** `y` is nowhere earlier than `x`. */
  predicate Ahead(x: Trip, y: Trip) {
    forall i :: 0 <= i < |x.stopTimes| && i < |y.stopTimes| ==>
      x.stopTimes[i].arrival <= y.stopTimes[i].arrival && x.stopTimes[i].departure <= y.stopTimes[i].departure
  }

  function Leaves(trip: Trip): int {
    if |trip.stopTimes| > 0 then trip.stopTimes[0].departure else 0
  }

  function Appears(trip: Trip): int {
    if |trip.stopTimes| > 0 then trip.stopTimes[0].arrival else 0
  }

  /** `x` leaves its first stop before `y`; at the same time the earlier arrival there decides, then the identifier. */
  predicate Earlier(x: Trip, y: Trip) {
    || Leaves(x) < Leaves(y)
    || (Leaves(x) == Leaves(y) && (Appears(x) < Appears(y) || (Appears(x) == Appears(y) && x.tripId < y.tripId)))
  }

  /** `chain[m]` was the last trip of its chain when `trip` had to be placed. */
  predicate WasLast(chain: seq<Trip>, m: nat, trip: Trip) {
    m < |chain| && Earlier(chain[m], trip) && (m + 1 < |chain| ==> !Earlier(chain[m + 1], trip))
  }

  /** Trip `p` of the chain, which could have followed `last` instead: it opened its chain only if it could not follow
      there, and follows a trip that leaves no earlier. */
  predicate Preferred(chain: seq<Trip>, p: nat, last: Trip)
    requires p < |chain|
  {
    Ahead(last, chain[p]) ==> p > 0 && Leaves(last) <= Leaves(chain[p - 1])
  }

  predicate PreferredOver(chain: seq<Trip>, other: seq<Trip>) {
    forall p, m :: 0 <= p < |chain| && 0 <= m < |other| && WasLast(other, m, chain[p]) ==> Preferred(chain, p, other[m])
  }

  /** Every trip joined, among the chains it may follow, the one whose last trip leaves latest, and opened a chain only
      when it may follow none. */
  predicate WellChosen(chains: seq<seq<Trip>>) {
    forall a, b :: 0 <= a < |chains| && 0 <= b < |chains| && a != b ==> PreferredOver(chains[a], chains[b])
  }

  predicate ComesBefore(chain: seq<Trip>, trip: Trip) {
    forall i :: 0 <= i < |chain| ==> Earlier(chain[i], trip)
  }

  /** Every trip placed so far comes before the next one. */
  ghost predicate AllBefore(chains: seq<seq<Trip>>, trip: Trip) {
    forall c :: c in chains ==> |c| > 0 && ComesBefore(c, trip)
  }

  /** The chosen chain leaves latest among those the trip may follow; none is chosen only when it may follow none. */
  lemma {:induction false} BestChainLeavesLatest(chains: seq<seq<Trip>>, trip: Trip)
    ensures var best := BestChain(chains, trip);
            forall b :: 0 <= b < |chains| && Compatible(chains[b], trip) ==>
              best.Some? && ChainKey(chains[b]) <= ChainKey(chains[best.value])
              && (b > best.value ==> ChainKey(chains[b]) < ChainKey(chains[best.value]))
  {
    if |chains| > 0 {
      BestChainLeavesLatest(chains[..|chains| - 1], trip);
    }
  }

  /** A trip that comes after all of a chain finds its end. */
  lemma EndFound(chain: seq<Trip>, m: nat, trip: Trip)
    requires ComesBefore(chain, trip) && WasLast(chain, m, trip)
    ensures m == |chain| - 1
  {
  }

  lemma OpeningPreferred(trip: Trip, other: seq<Trip>)
    requires |other| > 0 && ComesBefore(other, trip) && !Compatible(other, trip)
    ensures PreferredOver([trip], other) && PreferredOver(other, [trip])
  {
  }

  lemma FollowingPreferred(chain: seq<Trip>, trip: Trip, other: seq<Trip>)
    requires PreferredOver(chain, other) && ComesBefore(other, trip) && |chain| > 0
    requires Compatible(other, trip) ==> ChainKey(other) <= ChainKey(chain)
    ensures PreferredOver(chain + [trip], other)
  {
    var longer := chain + [trip];
    forall p, m | 0 <= p < |longer| && 0 <= m < |other| && WasLast(other, m, longer[p])
      ensures Preferred(longer, p, other[m])
    {
      if p < |chain| {
        assert WasLast(other, m, chain[p]) && Preferred(chain, p, other[m]);
      } else {
        EndFound(other, m, trip);
      }
    }
  }

  lemma StillPreferred(chain: seq<Trip>, other: seq<Trip>, trip: Trip)
    requires PreferredOver(chain, other) && ComesBefore(chain, trip)
    ensures PreferredOver(chain, other + [trip])
  {
    var longer := other + [trip];
    forall p, m | 0 <= p < |chain| && 0 <= m < |longer| && WasLast(longer, m, chain[p])
      ensures Preferred(chain, p, longer[m])
    {
      assert m < |other| && WasLast(other, m, chain[p]);
    }
  }

  lemma PlaceChoosesWell(chains: seq<seq<Trip>>, trip: Trip)
    requires WellChosen(chains) && AllBefore(chains, trip)
    ensures WellChosen(Place(chains, trip))
  {
    BestChainLeavesLatest(chains, trip);
    var placed := Place(chains, trip);
    var best := BestChain(chains, trip);
    hide PreferredOver, Compatible, ComesBefore, ChainKey;
    forall a, b | 0 <= a < |placed| && 0 <= b < |placed| && a != b
      ensures PreferredOver(placed[a], placed[b])
    {
      assert a < |chains| ==> chains[a] in chains;
      assert b < |chains| ==> chains[b] in chains;
      assert a < |chains| && b < |chains| ==> PreferredOver(chains[a], chains[b]);
      if best.None? {
        if a == |chains| {
          OpeningPreferred(trip, chains[b]);
        } else if b == |chains| {
          OpeningPreferred(trip, chains[a]);
        }
      } else if a == best.value {
        FollowingPreferred(chains[a], trip, chains[b]);
      } else if b == best.value {
        StillPreferred(chains[a], chains[b], trip);
      }
    }
  }

  predicate StrictlyEarlier(trips: seq<Trip>) {
    forall i, j :: 0 <= i < j < |trips| ==> Earlier(trips[i], trips[j])
  }

  /** The chains hold nothing but the trips placed. */
  lemma {:induction false} GreedyBefore(trips: seq<Trip>, trip: Trip)
    requires forall t :: t in trips ==> Earlier(t, trip)
    ensures AllBefore(Greedy(trips), trip)
  {
    if |trips| > 0 {
      var front, last := trips[..|trips| - 1], trips[|trips| - 1];
      assert last in trips;
      GreedyBefore(front, trip);
      var chains := Greedy(front);
      forall c | c in Place(chains, last)
        ensures |c| > 0 && ComesBefore(c, trip)
      {
        if c !in chains {
          var best := BestChain(chains, last);
          if best.Some? {
            assert c == chains[best.value] + [last] && chains[best.value] in chains;
          }
        }
      }
    }
  }

  lemma {:induction false} GreedyChoosesWell(trips: seq<Trip>)
    requires StrictlyEarlier(trips)
    ensures WellChosen(Greedy(trips))
  {
    if |trips| > 0 {
      var front, last := trips[..|trips| - 1], trips[|trips| - 1];
      GreedyChoosesWell(front);
      GreedyBefore(front, last);
      PlaceChoosesWell(Greedy(front), last);
    }
  }

  /** The chains of any trips with unique identifiers are well chosen. */
  lemma ChainsWellChosen(trips: seq<Trip>)
    requires UniqueIds(trips)
    ensures WellChosen(Chains(trips))
  {
    var sorted := Sort(trips, TripOrder);
    TripOrderTotal();
    SortSorts(trips, TripOrder);
    if !AdjacentPrecede(sorted) {
      forall i, j | 0 <= i < j < |sorted|
        ensures Earlier(sorted[i], sorted[j])
      {
        assert sorted[i].tripId != sorted[j].tripId by {
          IdsStayUnique(trips, sorted);
        }
        assert TripOrder(sorted[i], sorted[j]);
      }
      GreedyChoosesWell(sorted);
    }
  }

  lemma IdsStayUnique(trips: seq<Trip>, sorted: seq<Trip>)
    requires UniqueIds(trips) && multiset(sorted) == multiset(trips)
    ensures UniqueIds(sorted)
  {
    forall i, j | 0 <= i < j < |sorted|
      ensures sorted[i].tripId != sorted[j].tripId
    {
      assert sorted[i] in multiset(trips) && sorted[j] in multiset(trips);
      var x :| 0 <= x < |trips| && trips[x] == sorted[i];
      var y :| 0 <= y < |trips| && trips[y] == sorted[j];
      if x == y {
        OccursTwice(sorted, i, j);
        OnceEach(trips, trips[x]);
      }
    }
  }
}
