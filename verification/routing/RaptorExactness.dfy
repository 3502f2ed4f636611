/** Networks on which every feasible itinerary is robust and every route orderly, so that the search misses nothing. */
module RaptorExactness {
  import opened Network
  import opened Partition
  import opened Grouping
  import opened TimetableBuilder
  import opened Itineraries
  import opened LegLaws
  import opened RaptorJourneys

  ghost predicate DistinctDepartures(trips: seq<Trip>) {
    forall x, y, i :: 0 <= x < y < |trips| && 0 <= i < |trips[x].stopTimes| && i < |trips[y].stopTimes| ==>
      trips[x].stopTimes[i].departure != trips[y].stopTimes[i].departure
  }

  ghost predicate SameDropOffs(trips: seq<Trip>) {
    forall x, y, i :: 0 <= x < |trips| && 0 <= y < |trips| && 0 <= i < |trips[x].stopTimes| && i < |trips[y].stopTimes| ==>
      trips[x].stopTimes[i].dropOff == trips[y].stopTimes[i].dropOff
  }

  /** Times never go back along the trip. */
  predicate RunsForward(trip: Trip) {
    forall i, j :: 0 <= i < j < |trip.stopTimes| ==> trip.stopTimes[i].departure <= trip.stopTimes[j].arrival
  }

  /** Without delays, a chain of trips with distinct departures and agreeing drop-off flags is an orderly route. */
  lemma ChainIsOrderly(q: Query, r: nat)
    requires NoDelays(q) && r < |q.tt.routes| && GoodRoute(q.tt.routes[r], q.tt.stops)
    requires DistinctDepartures(q.tt.routes[r].trips) && SameDropOffs(q.tt.routes[r].trips)
    ensures Orderly(q, r)
  {
    var trips := q.tt.routes[r].trips;
    forall x: nat, y: nat, i: nat, j: nat | Comparable(q, r, x, y, i, j) && Departure(q, r, x, i) <= Departure(q, r, y, i)
      ensures Arrival(q, r, x, j) <= Arrival(q, r, y, j) && Departure(q, r, x, j) <= Departure(q, r, y, j)
    {
      OnSchedule(q, r, x, i);
      OnSchedule(q, r, y, i);
      OnSchedule(q, r, x, j);
      OnSchedule(q, r, y, j);
      assert x < y ==> Precedes(trips[x], trips[y]);
      assert y < x ==> Precedes(trips[y], trips[x]);
    }
  }

  lemma OnSchedule(q: Query, r: nat, t: nat, i: nat)
    requires NoDelays(q) && IsVisit(q, r, t, i)
    ensures Departure(q, r, t, i) == q.tt.routes[r].trips[t].stopTimes[i].departure
    ensures Arrival(q, r, t, i) == q.tt.routes[r].trips[t].stopTimes[i].arrival
  {
    var trip := q.tt.routes[r].trips[t];
    assert q.realtime.DelaySeconds(trip.tripId, trip.stopTimes[i].stopId) == 0;
  }

  /** No delays, changes that take no more than the requested buffer, and orderly timetables. */
  ghost predicate PlainNetwork(q: Query) {
    && NoDelays(q)
    && (forall s: nat :: ChangeSlack(q, s) == q.buffer)
    && (forall r :: 0 <= r < |q.tt.routes| ==>
          && GoodRoute(q.tt.routes[r], q.tt.stops)
          && DistinctDepartures(q.tt.routes[r].trips)
          && SameDropOffs(q.tt.routes[r].trips)
          && forall t :: t in q.tt.routes[r].trips ==> RunsForward(t))
  }

  lemma {:induction false} FeasibleIsRobust(q: Query, it: Itinerary)
    requires PlainNetwork(q) && Feasible(q, it)
    ensures Robust(q, it) && RidesOrderlyRoutes(q, it)
    decreases it
  {
    match it
    case Start(_) =>
    case Extend(b, Walk(_)) =>
      FeasibleIsRobust(q, b);
    case Extend(b, Ride(r, t, i, j)) =>
      FeasibleIsRobust(q, b);
      ChainIsOrderly(q, r);
      OnSchedule(q, r, t, i);
      OnSchedule(q, r, t, j);
      assert q.tt.routes[r].trips[t] in q.tt.routes[r].trips;
  }

  /** On a plain network the search answers every feasible itinerary within its limits. */
  method NothingMissed(q: Query) returns (journeys: seq<Journey>)
    requires ValidQuery(q) && PlainNetwork(q)
    ensures forall j :: j in journeys ==> IsJourney(q, j) && j.transferCount <= q.maxTransfers
    ensures ParetoSorted(journeys)
    ensures forall it :: Feasible(q, it) && WithinLimits(q, it) ==> Answered(q, journeys, it)
    ensures forall j :: j in journeys ==> Kept(q, j)
    ensures forall legs :: Travels(q, legs, false) && Wanted(q, legs) ==> AsGood(q, journeys, legs)
  {
    journeys := Raptor(q);
    hide ValidQuery, PlainNetwork, Feasible, Robust, RidesOrderlyRoutes, WithinLimits, Answered, Travels, Wanted, AsGood;
    forall it | Feasible(q, it) && WithinLimits(q, it)
      ensures Answered(q, journeys, it)
    {
      FeasibleIsRobust(q, it);
    }
    forall legs | Travels(q, legs, false) && Wanted(q, legs)
      ensures AsGood(q, journeys, legs)
    {
      AnswersLegs(q, journeys, legs, false);
    }
  }

  /** The timetable a query runs on may be any that was built from trips and transfers. */
  lemma BuiltRoutesGood(q: Query, trips: seq<Trip>, transfers: seq<Transfer>, index: map<Id, nat>)
    requires BuiltFrom(q.tt, trips, transfers, index)
    ensures ValidTimetable(q.tt) && forall r :: 0 <= r < |q.tt.routes| ==> GoodRoute(q.tt.routes[r], q.tt.stops)
  {
    BuiltIsValid(q.tt, trips, transfers, index);
  }
}
