/** Splitting the trips of a line into chains in which no trip overtakes another. */
module Partition {
  import opened Machine
  import opened Sorting
  import opened Network

  function FirstDeparture(trip: Trip): U32 {
    if |trip.stopTimes| > 0 then trip.stopTimes[0].departure else 0
  }

  function FirstArrival(trip: Trip): U32 {
    if |trip.stopTimes| > 0 then trip.stopTimes[0].arrival else 0
  }

  predicate TripOrder(x: Trip, y: Trip) {
    || FirstDeparture(x) < FirstDeparture(y)
    || (FirstDeparture(x) == FirstDeparture(y)
        && (FirstArrival(x) < FirstArrival(y) || (FirstArrival(x) == FirstArrival(y) && x.tripId <= y.tripId)))
  }

  /** `raptor_trip_precedes`: no later anywhere on the stops both have. */
  predicate Precedes(x: Trip, y: Trip) {
    forall i :: 0 <= i < |x.stopTimes| && i < |y.stopTimes| ==>
      x.stopTimes[i].arrival <= y.stopTimes[i].arrival && x.stopTimes[i].departure <= y.stopTimes[i].departure
  }

  /** The trips of one group have the same number of stops, and at least one. */
  ghost predicate SameLength(trips: seq<Trip>, n: nat) {
    n > 0 && forall t :: t in trips ==> |t.stopTimes| == n
  }

  /** Every trip precedes every later one, not only the next. */
  ghost predicate Chain(trips: seq<Trip>) {
    forall i, j :: 0 <= i < j < |trips| ==> Precedes(trips[i], trips[j])
  }

  ghost predicate UniqueIds(trips: seq<Trip>) {
    forall i, j :: 0 <= i < j < |trips| ==> trips[i].tripId != trips[j].tripId
  }

  function Flat<T>(parts: seq<seq<T>>): seq<T> {
    if |parts| == 0 then [] else Flat(parts[..|parts| - 1]) + parts[|parts| - 1]
  }

  // ---------------------------------------------------------------- the algorithm as a function

  predicate Compatible(chain: seq<Trip>, trip: Trip) {
    |chain| > 0 && Precedes(chain[|chain| - 1], trip)
  }

  function ChainKey(chain: seq<Trip>): U32 {
    if |chain| == 0 then 0 else FirstDeparture(chain[|chain| - 1])
  }

  /** The compatible chain whose last trip leaves latest; the last such chain, as `max_by_key` has it. */
  function BestChain(chains: seq<seq<Trip>>, trip: Trip): (best: Option<nat>)
    ensures best.Some? ==> best.value < |chains| && Compatible(chains[best.value], trip)
  {
    if |chains| == 0 then None
    else
      var n := |chains| - 1;
      var known := BestChain(chains[..n], trip);
      if Compatible(chains[n], trip) && (known.None? || ChainKey(chains[n]) >= ChainKey(chains[known.value]))
      then Some(n)
      else known
  }

  function Place(chains: seq<seq<Trip>>, trip: Trip): seq<seq<Trip>> {
    match BestChain(chains, trip)
    case Some(n) => chains[n := chains[n] + [trip]]
    case None => chains + [[trip]]
  }

  function Greedy(trips: seq<Trip>): seq<seq<Trip>> {
    if |trips| == 0 then [] else Place(Greedy(trips[..|trips| - 1]), trips[|trips| - 1])
  }

  predicate AdjacentPrecede(trips: seq<Trip>) {
    forall i :: 0 <= i < |trips| - 1 ==> Precedes(trips[i], trips[i + 1])
  }

  function Chains(trips: seq<Trip>): seq<seq<Trip>> {
    var sorted := Sort(trips, TripOrder);
    if AdjacentPrecede(sorted) then [sorted] else Greedy(sorted)
  }

  // ---------------------------------------------------------------- the algorithm as it runs

  method PartitionNonOvertakingTrips(trips: seq<Trip>) returns (partitions: seq<seq<Trip>>)
    ensures partitions == Chains(trips)
  {
    var sorted := Sort(trips, TripOrder);
    if AdjacentPrecede(sorted) {
      return [sorted];
    }
    partitions := [];
    for n := 0 to |sorted|
      invariant partitions == Greedy(sorted[..n])
    {
      assert sorted[..n + 1][..n] == sorted[..n];
      var trip := sorted[n];
      var best := FindChain(partitions, trip);
      if best.Some? {
        partitions := partitions[best.value := partitions[best.value] + [trip]];
      } else {
        partitions := partitions + [[trip]];
      }
    }
    assert sorted[..|sorted|] == sorted;
  }

  method FindChain(chains: seq<seq<Trip>>, trip: Trip) returns (best: Option<nat>)
    ensures best == BestChain(chains, trip)
  {
    best := None;
    for n := 0 to |chains|
      invariant best == BestChain(chains[..n], trip)
    {
      assert chains[..n + 1][..n] == chains[..n];
      if Compatible(chains[n], trip) && (best.None? || ChainKey(chains[n]) >= ChainKey(chains[best.value])) {
        best := Some(n);
      }
    }
    assert chains[..|chains|] == chains;
  }

  // ---------------------------------------------------------------- what the chains are

  lemma TripOrderTotal()
    ensures TotalPreorder(TripOrder)
  {
  }

  lemma PrecedesTransitive(x: Trip, y: Trip, z: Trip)
    requires Precedes(x, y) && Precedes(y, z) && |x.stopTimes| == |y.stopTimes| == |z.stopTimes|
    ensures Precedes(x, z)
  {
  }

  /** Placing a trip after the last one of a chain keeps the whole chain in order. */
  lemma ChainGrows(chain: seq<Trip>, trip: Trip, n: nat)
    requires Chain(chain) && Compatible(chain, trip) && SameLength(chain + [trip], n)
    ensures Chain(chain + [trip])
  {
    var last := chain[|chain| - 1];
    forall i | 0 <= i < |chain|
      ensures Precedes(chain[i], trip)
    {
      assert chain[i] in chain + [trip] && last in chain + [trip] && trip in chain + [trip];
      if i < |chain| - 1 {
        PrecedesTransitive(chain[i], last, trip);
      }
    }
  }

  lemma {:induction false} FlatUpdate(parts: seq<seq<Trip>>, n: nat, trip: Trip)
    requires n < |parts|
    ensures multiset(Flat(parts[n := parts[n] + [trip]])) == multiset(Flat(parts)) + multiset{trip}
  {
    var m := |parts| - 1;
    var updated := parts[n := parts[n] + [trip]];
    if n == m {
      assert updated[..m] == parts[..m];
    } else {
      assert updated[..m] == parts[..m][n := parts[n] + [trip]];
      FlatUpdate(parts[..m], n, trip);
    }
  }

  ghost predicate GoodChains(chains: seq<seq<Trip>>, n: nat) {
    forall c :: c in chains ==> |c| > 0 && Chain(c) && SameLength(c, n)
  }

  lemma {:induction false} GreedyChains(trips: seq<Trip>, n: nat)
    requires SameLength(trips, n)
    ensures GoodChains(Greedy(trips), n)
    ensures multiset(Flat(Greedy(trips))) == multiset(trips)
  {
    if |trips| > 0 {
      var front := trips[..|trips| - 1];
      var trip := trips[|trips| - 1];
      assert trips == front + [trip] && trip in trips && SameLength(front, n);
      hide GoodChains, Place, SameLength;
      GreedyChains(front, n);
      PlaceKeepsChains(Greedy(front), trip, n);
    }
  }

  lemma PlaceKeepsChains(chains: seq<seq<Trip>>, trip: Trip, n: nat)
    requires GoodChains(chains, n) && |trip.stopTimes| == n > 0
    ensures GoodChains(Place(chains, trip), n)
    ensures multiset(Flat(Place(chains, trip))) == multiset(Flat(chains)) + multiset{trip}
  {
    var placed := Place(chains, trip);
    match BestChain(chains, trip)
    case None =>
      assert placed[..|chains|] == chains;
      assert Chain([trip]) && SameLength([trip], n);
    case Some(k) =>
      FlatUpdate(chains, k, trip);
      assert chains[k] in chains;
      ChainGrows(chains[k], trip, n);
      assert SameLength(placed[k], n);
  }

  lemma {:induction false} AdjacentChain(trips: seq<Trip>, n: nat)
    requires SameLength(trips, n) && AdjacentPrecede(trips)
    ensures Chain(trips)
  {
    if |trips| > 1 {
      var front := trips[..|trips| - 1];
      AdjacentChain(front, n);
      assert trips == front + [trips[|trips| - 1]];
      ChainGrows(front, trips[|trips| - 1], n);
    }
  }

  /** The chains of a group are not empty, each is in order throughout, and together they hold exactly its trips. */
  lemma ChainsCorrect(trips: seq<Trip>, n: nat)
    requires SameLength(trips, n) && |trips| > 0
    ensures forall c :: c in Chains(trips) ==> |c| > 0 && Chain(c)
    ensures multiset(Flat(Chains(trips))) == multiset(trips)
  {
    TripOrderTotal();
    SortSorts(trips, TripOrder);
    var sorted := Sort(trips, TripOrder);
    forall t | t in sorted
      ensures t in trips
    {
      assert t in multiset(sorted);
    }
    if AdjacentPrecede(sorted) {
      AdjacentChain(sorted, n);
      assert Flat([sorted]) == sorted by {
        assert Flat([sorted]) == Flat([]) + sorted;
      }
    } else {
      GreedyChains(sorted, n);
    }
  }

  /** The all-in-one branch gives what the greedy loop would have given. */
  lemma {:induction false} FastPathAgrees(trips: seq<Trip>)
    requires |trips| > 0 && AdjacentPrecede(trips)
    ensures Greedy(trips) == [trips]
  {
    var front := trips[..|trips| - 1];
    var trip := trips[|trips| - 1];
    if |front| > 0 {
      FastPathAgrees(front);
      assert Precedes(front[|front| - 1], trip);
      var none: seq<seq<Trip>> := [];
      assert [front][..0] == none;
      assert BestChain([front], trip) == Some(0);
      assert front + [trip] == trips;
    } else {
      assert [trip] == trips;
    }
  }

  /** With unique identifiers the chains do not depend on the order in which the trips arrive. */
  lemma ChainsIgnoreOrder(trips: seq<Trip>, others: seq<Trip>)
    requires multiset(trips) == multiset(others) && UniqueIds(trips)
    ensures Chains(trips) == Chains(others)
  {
    TripOrderTotal();
    forall x, y | x in trips && y in trips && TripOrder(x, y) && TripOrder(y, x)
      ensures x == y
    {
      var i :| 0 <= i < |trips| && trips[i] == x;
      var j :| 0 <= j < |trips| && trips[j] == y;
      assert x.tripId == y.tripId;
    }
    SortOfPermutation(trips, others, TripOrder);
  }
}
