/** Turning a chain of trips into a route with its departure indices. */
module RouteBuilding {
  import opened Machine
  import opened Sorting
  import opened Network
  import opened Partition

  /** Indices below `n` of the trips to list, in ascending order. */
  function Listed(trips: seq<Trip>, verifiedOnly: bool, n: nat): (indices: seq<nat>)
    requires n <= |trips|
    ensures forall k :: k in indices <==> 0 <= k < n && (!verifiedOnly || trips[k].verified)
    ensures forall a, b :: 0 <= a < b < |indices| ==> indices[a] < indices[b]
  {
    if n == 0 then []
    else
      var front := Listed(trips, verifiedOnly, n - 1);
      assert forall a :: 0 <= a < |front| ==> front[a] in front;
      if !verifiedOnly || trips[n - 1].verified then front + [n - 1] else front
  }

  function DepartureAt(trips: seq<Trip>, position: nat, t: nat): U32 {
    if t < |trips| && position < |trips[t].stopTimes| then trips[t].stopTimes[position].departure else 0
  }

  function ByDeparture(trips: seq<Trip>, position: nat): (nat, nat) -> bool {
    (a: nat, b: nat) => DepartureAt(trips, position, a) <= DepartureAt(trips, position, b)
  }

  /** `route_departure_indices_by_stop_index` */
  function DepartureIndices(trips: seq<Trip>, verifiedOnly: bool): seq<seq<nat>> {
    var stopCount := if |trips| == 0 then 0 else |trips[0].stopTimes|;
    seq(stopCount, (position: nat) => Sort(Listed(trips, verifiedOnly, |trips|), ByDeparture(trips, position)))
  }

  predicate ByFirstDeparture(x: Trip, y: Trip) {
    (if |x.stopTimes| == 0 then U32_MAX else x.stopTimes[0].departure)
    <= (if |y.stopTimes| == 0 then U32_MAX else y.stopTimes[0].departure)
  }

  /** The dense index of a stop; every stop of a trip has one. */
  function IndexOf(index: map<Id, nat>, stopId: Id): nat {
    if stopId in index then index[stopId] else 0
  }

  function StopIndicesOf(trips: seq<Trip>, index: map<Id, nat>): seq<nat> {
    if |trips| == 0 then []
    else seq(|trips[0].stopTimes|, i requires 0 <= i < |trips[0].stopTimes| => IndexOf(index, trips[0].stopTimes[i].stopId))
  }

  /** A route made from one chain. */
  function MakeRoute(chain: seq<Trip>, index: map<Id, nat>): Route {
    var trips := Sort(chain, ByFirstDeparture);
    Route(trips, StopIndicesOf(trips, index), DepartureIndices(trips, false), DepartureIndices(trips, true))
  }

  lemma ChainSorted(chain: seq<Trip>, n: nat)
    requires Chain(chain) && SameLength(chain, n)
    ensures Sort(chain, ByFirstDeparture) == chain
  {
    forall a, b | 0 <= a < b < |chain|
      ensures ByFirstDeparture(chain[a], chain[b])
    {
      assert chain[a] in chain && chain[b] in chain && Precedes(chain[a], chain[b]);
    }
    SortFixed(chain, ByFirstDeparture);
  }

  lemma ListedSorted(chain: seq<Trip>, n: nat, verifiedOnly: bool, position: nat)
    requires Chain(chain) && SameLength(chain, n) && position < n
    ensures var listed := Listed(chain, verifiedOnly, |chain|);
            Sort(listed, ByDeparture(chain, position)) == listed
  {
    var listed := Listed(chain, verifiedOnly, |chain|);
    forall a, b | 0 <= a < b < |listed|
      ensures ByDeparture(chain, position)(listed[a], listed[b])
    {
      assert listed[a] in listed && listed[b] in listed;
      assert chain[listed[a]] in chain && chain[listed[b]] in chain;
      assert Precedes(chain[listed[a]], chain[listed[b]]);
    }
    hide Listed, Chain;
    SortFixed(listed, ByDeparture(chain, position));
  }

  /** The trips of a chain are in departure order at every position already, so sorting leaves everything where it is:
      the departure index is the identity, and the verified index is its filter. */
  lemma ChainIndices(chain: seq<Trip>, n: nat, verifiedOnly: bool)
    requires Chain(chain) && SameLength(chain, n) && |chain| > 0
    ensures |DepartureIndices(chain, verifiedOnly)| == n
    ensures forall position :: 0 <= position < n ==>
              DepartureIndices(chain, verifiedOnly)[position] == Listed(chain, verifiedOnly, |chain|)
  {
    assert chain[0] in chain;
    hide Chain, Listed, Sort;
    forall position | 0 <= position < n
      ensures DepartureIndices(chain, verifiedOnly)[position] == Listed(chain, verifiedOnly, |chain|)
    {
      ListedSorted(chain, n, verifiedOnly, position);
    }
  }

  lemma {:induction false} AllListed(trips: seq<Trip>, n: nat)
    requires n <= |trips|
    ensures Listed(trips, false, n) == seq(n, k => k)
  {
    if n > 0 {
      AllListed(trips, n - 1);
    }
  }

  /** Trips of one pattern: same line, mode and stops. */
  ghost predicate SamePattern(trips: seq<Trip>) {
    forall x, y :: x in trips && y in trips ==>
      && x.routeId == y.routeId && x.mode == y.mode && |x.stopTimes| == |y.stopTimes|
      && forall i :: 0 <= i < |x.stopTimes| ==> x.stopTimes[i].stopId == y.stopTimes[i].stopId
  }

  /** `stops` and `index` name the same stops. */
  ghost predicate Indexed(stops: seq<Id>, index: map<Id, nat>) {
    && (forall id :: id in index ==> index[id] < |stops| && stops[index[id]] == id)
    && (forall i :: 0 <= i < |stops| ==> stops[i] in index && index[stops[i]] == i)
  }

  /** The route of a chain: its trips are the chain, its stops the chain's stops, and each departure index lists, in
      order of departure, exactly the trips it should. */
  ghost predicate RouteOfChain(route: Route, chain: seq<Trip>, stops: seq<Id>) {
    && route.trips == chain
    && |chain| > 0 && |chain[0].stopTimes| > 0
    && Chain(chain)
    && |route.stopIndices| == |route.departures| == |route.verifiedDepartures| == |chain[0].stopTimes|
    && (forall i :: 0 <= i < |route.stopIndices| ==> route.stopIndices[i] < |stops|)
    && (forall t :: 0 <= t < |chain| ==>
          && |chain[t].stopTimes| == |chain[0].stopTimes|
          && chain[t].routeId == chain[0].routeId && chain[t].mode == chain[0].mode)
    && (forall t, i :: 0 <= t < |chain| && 0 <= i < |route.stopIndices| ==>
          chain[t].stopTimes[i].stopId == stops[route.stopIndices[i]])
    && (forall i :: 0 <= i < |route.stopIndices| ==>
          && route.departures[i] == seq(|chain|, k => k)
          && route.verifiedDepartures[i] == Listed(chain, true, |chain|)
          && DepartureIndex(chain, route.departures[i], i, false)
          && DepartureIndex(chain, route.verifiedDepartures[i], i, true))
  }

  lemma ListedIsIndex(chain: seq<Trip>, n: nat, verifiedOnly: bool, position: nat)
    requires Chain(chain) && SameLength(chain, n) && position < n
    ensures DepartureIndex(chain, Listed(chain, verifiedOnly, |chain|), position, verifiedOnly)
  {
    var listed := Listed(chain, verifiedOnly, |chain|);
    assert forall k :: 0 <= k < |chain| ==> chain[k] in chain;
    assert forall a :: 0 <= a < |listed| ==> listed[a] in listed;
    assert ListedAt(chain, listed, position);
    forall a, b | 0 <= a < b < |listed|
      ensures chain[listed[a]].stopTimes[position].departure <= chain[listed[b]].stopTimes[position].departure
    {
      assert Precedes(chain[listed[a]], chain[listed[b]]);
    }
  }

  lemma ChainRoute(chain: seq<Trip>, n: nat, stops: seq<Id>, index: map<Id, nat>)
    requires Chain(chain) && SameLength(chain, n) && |chain| > 0 && SamePattern(chain) && Indexed(stops, index)
    requires forall t, i :: t in chain && 0 <= i < |t.stopTimes| ==> t.stopTimes[i].stopId in index
    ensures RouteOfChain(MakeRoute(chain, index), chain, stops)
  {
    ChainSorted(chain, n);
    ChainIndices(chain, n, false);
    ChainIndices(chain, n, true);
    AllListed(chain, |chain|);
    assert forall k :: 0 <= k < |chain| ==> chain[k] in chain;
    forall i | 0 <= i < n
      ensures DepartureIndex(chain, Listed(chain, false, |chain|), i, false)
      ensures DepartureIndex(chain, Listed(chain, true, |chain|), i, true)
    {
      ListedIsIndex(chain, n, false, i);
      ListedIsIndex(chain, n, true, i);
    }
  }
}
