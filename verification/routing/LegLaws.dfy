/** What the legs of a journey promise a traveller, in numbers read off the timetable, the overlay and the request: which
    vehicle leaves when, how long a change takes, which lines may be used. Nothing here knows how a search decides. */
module LegLaws {
  import opened Machine
  import opened Network
  import opened Itineraries

  /** A scheduled time, `delay` seconds later, within the range of the clock. */
  function Shifted(scheduled: U32, delay: int): U32 {
    var time := scheduled + delay;
    if time < 0 then 0 else if time > U32_MAX then U32_MAX else time
  }

  function NameOf(tt: Timetable, stop: nat): Id {
    if stop < |tt.stops| then tt.stops[stop] else 0
  }

  /** When the vehicle of a ride really leaves, and when it really arrives. */
  function LeavesAt(q: Query, leg: Leg): U32 {
    if leg.WalkLeg? then leg.departure
    else Shifted(leg.departure, q.realtime.DelaySeconds(leg.tripId, NameOf(q.tt, leg.from)))
  }

  function ArrivesAt(q: Query, leg: Leg): U32 {
    if leg.WalkLeg? then leg.arrival
    else Shifted(leg.arrival, q.realtime.DelaySeconds(leg.tripId, NameOf(q.tt, leg.to)))
  }

  /** When the traveller is at the end of the legs. */
  function ReadyAt(q: Query, legs: seq<Leg>): int {
    if |legs| == 0 then q.departure
    else
      var last := legs[|legs| - 1];
      if last.RideLeg? then ArrivesAt(q, last) else ReadyAt(q, legs[..|legs| - 1]) + (last.arrival - last.departure)
  }

  /** How long a change of vehicles takes at the stop: as the timetable says, or else as the request does. */
  function ChangeSeconds(q: Query, stop: nat): U32 {
    if stop < |q.tt.minChange| && q.tt.minChange[stop].Some? then q.tt.minChange[stop].value else q.minTransfer
  }

  /** The time to be kept free before a vehicle is boarded: none at the start, the buffer after a walk, the change of
      vehicles and the buffer after a ride. A careful traveller allows for a change after a walk, too. */
  function Margin(q: Query, legs: seq<Leg>, careful: bool): nat {
    if |legs| == 0 then 0
    else
      var last := legs[|legs| - 1];
      if last.WalkLeg? && !careful then q.buffer else ChangeSeconds(q, last.to) + q.buffer
  }

  /** The leg is a ride on trip `t` of route `r` from its stop `i` to its stop `j`. */
  predicate OnTrip(q: Query, leg: Leg, r: nat, t: nat, i: nat, j: nat) {
    && leg.RideLeg? && r < |q.tt.routes| && t < |q.tt.routes[r].trips|
    && var route := q.tt.routes[r];
       var trip := route.trips[t];
       && i < j < |route.stopIndices| && j < |trip.stopTimes|
       && leg.from == route.stopIndices[i] && leg.to == route.stopIndices[j]
       && leg.tripId == trip.tripId && leg.routeId == trip.routeId && leg.mode == trip.mode
       && leg.departure == trip.stopTimes[i].departure && leg.arrival == trip.stopTimes[j].arrival
       && trip.stopTimes[i].pickup && trip.stopTimes[j].dropOff
       && (q.allowUnverified || trip.verified)
  }

  ghost predicate HasVehicle(q: Query, leg: Leg, careful: bool) {
    exists r, t, i, j :: OnTrip(q, leg, r, t, i, j) && (careful ==> Orderly(q, r))
  }

  /** There is a way on foot that takes so long, in the timetable or in the request. */
  predicate OnFootBetween(q: Query, from: nat, to: nat, seconds: int) {
    || (from < |q.tt.links| && exists l :: l in q.tt.links[from] && l.to == to && l.seconds == seconds)
    || (from in q.extraLinks && exists l :: l in q.extraLinks[from] && l.to == to && l.seconds == seconds)
  }

  ghost predicate RideLegPossible(q: Query, before: seq<Leg>, leg: Leg, careful: bool) {
    && leg.RideLeg? && HasVehicle(q, leg, careful)
    && leg.routeId !in q.excluded && (q.modes == {} || leg.mode in q.modes)
    && (LeavesAt(q, leg) >= ReadyAt(q, before) + Margin(q, before, careful) || LeavesAt(q, leg) == U32_MAX)
    && (careful ==> LeavesAt(q, leg) <= ArrivesAt(q, leg))
    && (leg.officialChange <==>
          |before| > 0 && before[|before| - 1].RideLeg? && leg.from < |q.tt.minChange| && q.tt.minChange[leg.from].Some?)
    && (leg.realtime <==> LeavesAt(q, leg) != leg.departure || ArrivesAt(q, leg) != leg.arrival)
  }

  /** The leg can follow the legs before it. */
  ghost predicate LegPossible(q: Query, before: seq<Leg>, leg: Leg, careful: bool) {
    && (if |before| == 0 then leg.from in q.origins else leg.from == before[|before| - 1].to)
    && ReadyAt(q, before + [leg]) < U32_MAX
    && if leg.WalkLeg? then OnFootBetween(q, leg.from, leg.to, leg.arrival - leg.departure)
       else RideLegPossible(q, before, leg, careful)
  }

  /** The legs lead from an origin of the request to where the last one ends, and can be made one after another. */
  ghost predicate Travels(q: Query, legs: seq<Leg>, careful: bool) {
    && |legs| > 0 && q.departure < U32_MAX
    && forall n :: 0 <= n < |legs| ==> LegPossible(q, legs[..n], legs[n], careful)
  }

  /** A walk is shown with the times at which the traveller is on it. */
  predicate ShownAt(q: Query, before: seq<Leg>, leg: Leg) {
    leg.WalkLeg? ==> leg.departure == ReadyAt(q, before)
  }

  predicate ShownOnTime(q: Query, legs: seq<Leg>) {
    forall n :: 0 <= n < |legs| ==> ShownAt(q, legs[..n], legs[n])
  }

  function RideCount(legs: seq<Leg>): nat {
    if |legs| == 0 then 0 else RideCount(legs[..|legs| - 1]) + if legs[|legs| - 1].RideLeg? then 1 else 0
  }

  /** How a journey shows a walk: with the traveller's own times, except that the walks before the first vehicle follow
      each other without gaps and end when it is scheduled to leave, provided they take no longer than that. */
  predicate WalkShown(q: Query, legs: seq<Leg>, n: nat)
    requires n < |legs|
  {
    if RideCount(legs[..n]) > 0 then legs[n].departure == ReadyAt(q, legs[..n])
    else
      && (n > 0 ==> legs[n - 1].arrival == legs[n].departure)
      && (n + 1 < |legs| && legs[n + 1].RideLeg? ==>
            var ready := ReadyAt(q, legs[..n + 1]);
            legs[n].arrival == if ready - q.departure <= legs[n + 1].departure then legs[n + 1].departure else ready)
  }

  predicate ShownInJourney(q: Query, legs: seq<Leg>) {
    forall n :: 0 <= n < |legs| && legs[n].WalkLeg? ==> WalkShown(q, legs, n)
  }
}
