/** What a traveller can do on a timetable, stated without reference to any search: walk along links and ride trips,
    one move after another. The search is measured against this definition from both sides. */
module Itineraries {
  import opened Machine
  import opened Network
  import opened Realtime

  /** A resolved search request: stops are dense indices, those not in the timetable numbered after its stops. */
  datatype Query = Query(
    tt: Timetable,
    realtime: RealtimeData,
    extraStops: seq<Id>,
    stopCount: nat,
    origins: seq<nat>,
    targets: seq<nat>,
    extraLinks: map<nat, seq<Link>>,
    departure: U32,
    maxTransfers: nat,
    minTransfer: U32,
    buffer: U32,
    modes: set<Mode>,
    allowUnverified: bool,
    excluded: set<Id>)

  ghost predicate ValidQuery(q: Query) {
    && ValidTimetable(q.tt)
    && Consistent(q.realtime)
    && q.stopCount == |q.tt.stops| + |q.extraStops|
    && (forall s :: s in q.origins ==> s < q.stopCount)
    && (forall s :: s in q.targets ==> s < q.stopCount)
    && (forall s, l :: s in q.extraLinks && l in q.extraLinks[s] ==> l.to < q.stopCount)
  }

  /** `raptor_stop_id`: the identifier behind a dense index; 0 stands for the empty default. */
  function StopName(q: Query, stop: nat): Id {
    if stop < |q.tt.stops| then q.tt.stops[stop]
    else if stop - |q.tt.stops| < |q.extraStops| then q.extraStops[stop - |q.tt.stops|]
    else 0
  }

  function Links(q: Query, stop: nat): seq<Link> {
    (if stop < |q.tt.links| then q.tt.links[stop] else [])
    + (if stop in q.extraLinks then q.extraLinks[stop] else [])
  }

  /** Links lead to known stops. */
  ghost predicate LinksStay(q: Query) {
    forall s, l :: 0 <= s < q.stopCount && l in Links(q, s) ==> l.to < q.stopCount
  }

  lemma ValidQueryLinksStay(q: Query)
    requires ValidQuery(q)
    ensures LinksStay(q)
  {
    forall s, l | 0 <= s < q.stopCount && l in Links(q, s)
      ensures l.to < q.stopCount
    {
      if !(s < |q.tt.links| && l in q.tt.links[s]) {
        assert l in q.extraLinks[s];
      }
    }
  }

  // ---------------------------------------------------------------- looking at a route

  predicate IsVisit(q: Query, r: nat, t: nat, i: nat) {
    && r < |q.tt.routes|
    && t < |q.tt.routes[r].trips|
    && i < |q.tt.routes[r].stopIndices|
    && i < |q.tt.routes[r].trips[t].stopTimes|
  }

  function StopAt(q: Query, r: nat, i: nat): nat {
    if r < |q.tt.routes| && i < |q.tt.routes[r].stopIndices| then q.tt.routes[r].stopIndices[i] else 0
  }

  /** Departure and arrival as the overlay adjusts them. */
  function Departure(q: Query, r: nat, t: nat, i: nat): U32 {
    if IsVisit(q, r, t, i) then EffectiveDeparture(q.tt.routes[r].trips, q.realtime, t, i) else 0
  }

  function Arrival(q: Query, r: nat, t: nat, i: nat): U32 {
    if IsVisit(q, r, t, i) then
      var trip := q.tt.routes[r].trips[t];
      q.realtime.AdjustedTime(trip.tripId, trip.stopTimes[i].stopId, trip.stopTimes[i].arrival)
    else 0
  }

  predicate PicksUp(q: Query, r: nat, t: nat, i: nat) {
    IsVisit(q, r, t, i) && q.tt.routes[r].trips[t].stopTimes[i].pickup
  }

  predicate DropsOff(q: Query, r: nat, t: nat, i: nat) {
    IsVisit(q, r, t, i) && q.tt.routes[r].trips[t].stopTimes[i].dropOff
  }

  predicate RouteAllowed(q: Query, r: nat) {
    && r < |q.tt.routes|
    && |q.tt.routes[r].trips| > 0
    && q.tt.routes[r].trips[0].routeId !in q.excluded
    && (q.modes == {} || q.tt.routes[r].trips[0].mode in q.modes)
  }

  predicate TripAllowed(q: Query, r: nat, t: nat) {
    && r < |q.tt.routes|
    && t < |q.tt.routes[r].trips|
    && (q.allowUnverified || q.tt.routes[r].trips[t].verified)
  }

  // ---------------------------------------------------------------- itineraries

  datatype Move = Walk(link: Link) | Ride(route: nat, trip: nat, board: nat, alight: nat)

  datatype Itinerary = Start(origin: nat) | Extend(before: Itinerary, move: Move)

  function End(q: Query, it: Itinerary): nat {
    match it
    case Start(o) => o
    case Extend(_, Walk(l)) => l.to
    case Extend(_, Ride(r, _, _, j)) => StopAt(q, r, j)
  }

  function Time(q: Query, it: Itinerary): int {
    match it
    case Start(_) => q.departure
    case Extend(b, Walk(l)) => Time(q, b) + l.seconds
    case Extend(_, Ride(r, t, _, j)) => Arrival(q, r, t, j)
  }

  function Rides(it: Itinerary): nat {
    match it
    case Start(_) => 0
    case Extend(b, Walk(_)) => Rides(b)
    case Extend(b, Ride(_, _, _, _)) => Rides(b) + 1
  }

  /** The official change time of a stop, when the timetable has one. */
  function OfficialChange(q: Query, stop: nat): Option<U32> {
    if stop < |q.tt.minChange| then q.tt.minChange[stop] else None
  }

  /** The margin after getting off a vehicle at `stop`. */
  function ChangeSlack(q: Query, stop: nat): U32 {
    match OfficialChange(q, stop)
    case Some(seconds) => SatAdd(seconds, q.buffer)
    case None => SatAdd(q.minTransfer, q.buffer)
  }

  /** The margin the router asks for before the next ride: none at the origin, the requested buffer after a walk, the
      change time of the stop after a ride. */
  function Slack(q: Query, it: Itinerary): U32 {
    match it
    case Start(_) => 0
    case Extend(_, Walk(_)) => q.buffer
    case Extend(_, Ride(_, _, _, _)) => ChangeSlack(q, End(q, it))
  }

  /** A margin that is enough however the stop was reached. */
  function CautiousSlack(q: Query, it: Itinerary): U32 {
    match it
    case Start(_) => 0
    case Extend(_, _) => Max(q.buffer, ChangeSlack(q, End(q, it)))
  }

  predicate RidePossible(q: Query, move: Move) {
    && move.Ride?
    && move.board < move.alight
    && RouteAllowed(q, move.route)
    && TripAllowed(q, move.route, move.trip)
    && PicksUp(q, move.route, move.trip, move.board)
    && DropsOff(q, move.route, move.trip, move.alight)
  }

  /** The vehicle leaves the stop reached by `before` no earlier than `slack` after the traveller gets there. */
  predicate Connects(q: Query, before: Itinerary, move: Move, slack: U32) {
    && move.Ride?
    && StopAt(q, move.route, move.board) == End(q, before)
    && Departure(q, move.route, move.trip, move.board) >= Min(Time(q, before) + slack, U32_MAX)
  }

  /** Every move can be made, with the router's own margins. */
  predicate Feasible(q: Query, it: Itinerary) {
    && Time(q, it) < U32_MAX
    && match it
       case Start(o) => o in q.origins
       case Extend(b, Walk(l)) => Feasible(q, b) && l in Links(q, End(q, b))
       case Extend(b, Ride(_, _, _, _)) =>
         Feasible(q, b) && RidePossible(q, it.move) && Connects(q, b, it.move, Slack(q, b))
  }

  /** Every move can be made, with margins that do not depend on how a stop was reached, and no vehicle arrives before
      it left. */
  predicate Robust(q: Query, it: Itinerary) {
    && Time(q, it) < U32_MAX
    && match it
       case Start(o) => o in q.origins
       case Extend(b, Walk(l)) => Robust(q, b) && l in Links(q, End(q, b))
       case Extend(b, Ride(r, t, i, j)) =>
         && Robust(q, b) && RidePossible(q, it.move) && Connects(q, b, it.move, CautiousSlack(q, b))
         && Departure(q, r, t, i) <= Arrival(q, r, t, j)
  }

  predicate Comparable(q: Query, r: nat, x: nat, y: nat, i: nat, j: nat) {
    && TripAllowed(q, r, x) && TripAllowed(q, r, y)
    && i < j && IsVisit(q, r, x, j) && IsVisit(q, r, y, j)
  }

  /** On this route a trip that leaves a stop no later than another stays no later, and the trips agree on where
      passengers may get off. */
  ghost predicate Orderly(q: Query, r: nat) {
    && (forall x, y, i, j :: Comparable(q, r, x, y, i, j) && Departure(q, r, x, i) <= Departure(q, r, y, i) ==>
          Arrival(q, r, x, j) <= Arrival(q, r, y, j) && Departure(q, r, x, j) <= Departure(q, r, y, j))
    && (forall x, y, j :: TripAllowed(q, r, x) && TripAllowed(q, r, y) && DropsOff(q, r, y, j) ==> DropsOff(q, r, x, j))
  }

  ghost predicate RidesOrderlyRoutes(q: Query, it: Itinerary) {
    match it
    case Start(_) => true
    case Extend(b, Walk(_)) => RidesOrderlyRoutes(q, b)
    case Extend(b, Ride(r, _, _, _)) => RidesOrderlyRoutes(q, b) && Orderly(q, r)
  }

  // ---------------------------------------------------------------- how an itinerary is shown

  datatype Leg =
    | WalkLeg(from: nat, to: nat, departure: U32, arrival: U32)
    | RideLeg(from: nat, to: nat, tripId: Id, routeId: Id, mode: Mode, departure: U32, arrival: U32,
              officialChange: bool, realtime: bool)

  predicate UsesOfficialChange(q: Query, before: Itinerary) {
    before.Extend? && before.move.Ride? && OfficialChange(q, End(q, before)).Some?
  }

  function RideLegOf(q: Query, move: Move, official: bool): Leg
    requires move.Ride? && IsVisit(q, move.route, move.trip, move.board) && IsVisit(q, move.route, move.trip, move.alight)
  {
    var Ride(r, t, i, j) := move;
    var trip := q.tt.routes[r].trips[t];
    var departure := trip.stopTimes[i].departure;
    var arrival := trip.stopTimes[j].arrival;
    RideLeg(StopAt(q, r, i), StopAt(q, r, j), trip.tripId, trip.routeId, trip.mode, departure, arrival, official,
            Departure(q, r, t, i) != departure || Arrival(q, r, t, j) != arrival)
  }

  /** The legs that present an itinerary: rides with their scheduled times, walks with the traveller's own times. */
  function LegsOf(q: Query, it: Itinerary): seq<Leg>
    requires Feasible(q, it)
  {
    match it
    case Start(_) => []
    case Extend(b, Walk(l)) =>
      TimeNonNegative(q, b);
      LegsOf(q, b) + [WalkLeg(End(q, b), l.to, Time(q, b), Time(q, b) + l.seconds)]
    case Extend(b, Ride(_, _, _, _)) =>
      LegsOf(q, b) + [RideLegOf(q, it.move, UsesOfficialChange(q, b))]
  }

  lemma TimeNonNegative(q: Query, it: Itinerary)
    ensures Time(q, it) >= 0
  {
  }

  lemma WalkAddsLeg(q: Query, it: Itinerary)
    requires Feasible(q, it) && it.Extend? && it.move.Walk?
    ensures Feasible(q, it.before) && Time(q, it.before) >= 0
    ensures LegsOf(q, it) == LegsOf(q, it.before)
      + [WalkLeg(End(q, it.before), it.move.link.to, Time(q, it.before), Time(q, it.before) + it.move.link.seconds)]
  {
    TimeNonNegative(q, it.before);
  }

  lemma RideAddsLeg(q: Query, it: Itinerary)
    requires Feasible(q, it) && it.Extend? && it.move.Ride?
    ensures Feasible(q, it.before) && RidePossible(q, it.move)
    ensures LegsOf(q, it) == LegsOf(q, it.before) + [RideLegOf(q, it.move, UsesOfficialChange(q, it.before))]
  {
  }

  ghost predicate NoDelays(q: Query) {
    forall t, s {:trigger q.realtime.DelaySeconds(t, s)} :: q.realtime.DelaySeconds(t, s) == 0
  }
}
