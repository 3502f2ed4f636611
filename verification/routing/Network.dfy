/** Trips, routes and the indexed timetable the router works on. Identifiers of stops, trips and routes are opaque
    values with a total order, written as integers. */
module Network {
  import opened Machine

  type Id = int
  type Mode = int

  datatype StopTime = StopTime(stopId: Id, arrival: U32, departure: U32, pickup: bool, dropOff: bool)

  datatype Trip = Trip(tripId: Id, routeId: Id, mode: Mode, verified: bool, stopTimes: seq<StopTime>)

  /** A route partition: trips that visit the same stops and never overtake each other. */
  datatype Route = Route(
    trips: seq<Trip>,
    stopIndices: seq<nat>,
    departures: seq<seq<nat>>,
    verifiedDepartures: seq<seq<nat>>)

  /** A walking link to a stop given by its dense index. */
  datatype Link = Link(to: nat, seconds: U32)

  datatype Timetable = Timetable(
    stops: seq<Id>,
    routes: seq<Route>,
    stopRoutes: seq<seq<(nat, nat)>>,
    links: seq<seq<Link>>,
    minChange: seq<Option<U32>>,
    tripRoute: map<Id, nat>)

  /** Every listed index names a trip that has a stop time at `position`. */
  ghost predicate ListedAt(trips: seq<Trip>, indices: seq<nat>, position: nat) {
    forall n :: 0 <= n < |indices| ==> indices[n] < |trips| && position < |trips[indices[n]].stopTimes|
  }

  ghost predicate SortedByDeparture(trips: seq<Trip>, indices: seq<nat>, position: nat)
    requires ListedAt(trips, indices, position)
  {
    forall m, n :: 0 <= m < n < |indices| ==>
      trips[indices[m]].stopTimes[position].departure <= trips[indices[n]].stopTimes[position].departure
  }

  /** `indices` is a departure index of the trips at `position`: sorted by departure, and listing each trip it should
      exactly once. */
  ghost predicate DepartureIndex(trips: seq<Trip>, indices: seq<nat>, position: nat, verifiedOnly: bool) {
    && ListedAt(trips, indices, position)
    && SortedByDeparture(trips, indices, position)
    && (forall m, n :: 0 <= m < n < |indices| ==> indices[m] != indices[n])
    && forall t :: 0 <= t < |trips| ==> (t in indices <==> !verifiedOnly || trips[t].verified)
  }

  ghost predicate ValidRoute(tt: Timetable, r: nat)
    requires r < |tt.routes|
  {
    var route := tt.routes[r];
    && |route.trips| > 0
    && (forall i :: 0 <= i < |route.stopIndices| ==> route.stopIndices[i] < |tt.stops|)
    && (forall t :: 0 <= t < |route.trips| ==>
          && |route.trips[t].stopTimes| == |route.stopIndices|
          && route.trips[t].routeId == route.trips[0].routeId
          && route.trips[t].mode == route.trips[0].mode)
    && (forall t, i :: 0 <= t < |route.trips| && 0 <= i < |route.stopIndices| ==>
          route.trips[t].stopTimes[i].stopId == tt.stops[route.stopIndices[i]])
    && |route.departures| == |route.verifiedDepartures| == |route.stopIndices|
    && (forall i :: 0 <= i < |route.stopIndices| ==>
          && DepartureIndex(route.trips, route.departures[i], i, false)
          && DepartureIndex(route.trips, route.verifiedDepartures[i], i, true))
  }

  /** Position `i` of route `r` is a visit of stop `s`. */
  ghost predicate Visits(tt: Timetable, r: nat, i: nat, s: nat) {
    r < |tt.routes| && i < |tt.routes[r].stopIndices| && tt.routes[r].stopIndices[i] == s
  }

  /** What `RaptorTimetable::new` establishes and every search relies on. */
  ghost predicate ValidTimetable(tt: Timetable) {
    && |tt.stopRoutes| == |tt.links| == |tt.minChange| == |tt.stops|
    && (forall r :: 0 <= r < |tt.routes| ==> ValidRoute(tt, r))
    && (forall s, e :: 0 <= s < |tt.stops| && e in tt.stopRoutes[s] ==> Visits(tt, e.0, e.1, s))
    && (forall r: nat, i: nat, s: nat :: s < |tt.stops| && Visits(tt, r, i, s) ==> (r, i) in tt.stopRoutes[s])
    && (forall s, l :: 0 <= s < |tt.stops| && l in tt.links[s] ==> l.to < |tt.stops| && l.to != s)
    && (forall id :: id in tt.tripRoute ==> tt.tripRoute[id] < |tt.routes|)
    && (|tt.tripRoute| == 0 || TripsMapped(tt))
  }

  /** Each trip identifier is mapped to the route that holds the trip. */
  ghost predicate TripsMapped(tt: Timetable) {
    forall r, t :: 0 <= r < |tt.routes| && 0 <= t < |tt.routes[r].trips| ==>
      var id := tt.routes[r].trips[t].tripId; id in tt.tripRoute && tt.tripRoute[id] == r
  }
}
