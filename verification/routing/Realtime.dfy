/** The realtime overlay: delays collected from an update stream, conservative delay bounds for each route, and the
    search for the first departure a traveller can catch. */
module Realtime {
  import opened Machine
  import opened Network

  const MAX_REALTIME_ROUTING_DELAY_SECONDS: int := 6 * 3600

  type I32 = x: int | -0x8000_0000 <= x <= 0x7FFF_FFFF witness 0

  datatype Update = Update(tripId: Id, stopId: Option<Id>, delay: I32)

  datatype Bounds = Bounds(maxPositive: U32, maxEarly: U32)

  datatype RealtimeData = RealtimeData(
    delaysByTrip: map<Id, int>,
    delaysByTripStop: map<Id, map<Id, int>>,
    bounds: Bounds,
    boundsByTrip: map<Id, Bounds>)
  {
    function DelaySeconds(tripId: Id, stopId: Id): int {
      if tripId in delaysByTripStop && stopId in delaysByTripStop[tripId] then delaysByTripStop[tripId][stopId]
      else if tripId in delaysByTrip then delaysByTrip[tripId]
      else 0
    }

    function AdjustedTime(tripId: Id, stopId: Id, scheduled: U32): U32 {
      ApplyDelay(scheduled, DelaySeconds(tripId, stopId))
    }
  }

  function ApplyDelay(scheduled: U32, delay: int): U32 {
    if delay >= 0 then SatAdd(scheduled, delay) else SatSub(scheduled, -delay)
  }

  function Clamp(delay: int): int {
    Max(-MAX_REALTIME_ROUTING_DELAY_SECONDS, Min(MAX_REALTIME_ROUTING_DELAY_SECONDS, delay))
  }

  // ---------------------------------------------------------------- what an update stream means

  /** The delay of the first update about the trip. */
  function FirstForTrip(updates: seq<Update>, tripId: Id): Option<int> {
    if |updates| == 0 then None
    else
      var earlier := FirstForTrip(updates[..|updates| - 1], tripId);
      var u := updates[|updates| - 1];
      if earlier.Some? then earlier else if u.tripId == tripId then Some(Clamp(u.delay)) else None
  }

  /** The delay of the first update about the trip at that stop. */
  function FirstAtStop(updates: seq<Update>, tripId: Id, stopId: Id): Option<int> {
    if |updates| == 0 then None
    else
      var earlier := FirstAtStop(updates[..|updates| - 1], tripId, stopId);
      var u := updates[|updates| - 1];
      if earlier.Some? then earlier
      else if u.tripId == tripId && u.stopId == Some(stopId) then Some(Clamp(u.delay))
      else None
  }

  /** The delay a stream announces for a trip at a stop: the first word about that stop, else the first word about the
      trip, else none. */
  function Announced(updates: seq<Update>, tripId: Id, stopId: Id): int {
    match FirstAtStop(updates, tripId, stopId)
    case Some(d) => d
    case None =>
      match FirstForTrip(updates, tripId)
      case Some(d) => d
      case None => 0
  }

  /** The update is about the trip at the stop. */
  predicate AtStop(u: Update, tripId: Id, stopId: Id) {
    u.tripId == tripId && u.stopId == Some(stopId)
  }

  /** `seconds` is the delay of an update, held within six hours either way. */
  predicate HeldTo(delay: int, seconds: int) {
    && -21600 <= seconds <= 21600
    && (-21600 <= delay <= 21600 ==> seconds == delay)
    && (delay > 21600 ==> seconds == 21600) && (delay < -21600 ==> seconds == -21600)
  }

  /** What the overlay says about a trip at a stop, by the place of the deciding update: the first about that stop, or
      else the first about the trip; without any, the trip is on time. */
  ghost predicate SaysFirst(updates: seq<Update>, tripId: Id, stopId: Id, seconds: int) {
    && (forall n :: 0 <= n < |updates| && AtStop(updates[n], tripId, stopId)
                    && (forall m :: 0 <= m < n ==> !AtStop(updates[m], tripId, stopId)) ==>
          HeldTo(updates[n].delay, seconds))
    && ((forall m :: 0 <= m < |updates| ==> !AtStop(updates[m], tripId, stopId)) ==>
          forall n :: 0 <= n < |updates| && updates[n].tripId == tripId
                      && (forall m :: 0 <= m < n ==> updates[m].tripId != tripId) ==>
            HeldTo(updates[n].delay, seconds))
    && ((forall u :: u in updates ==> u.tripId != tripId) ==> seconds == 0)
  }

  lemma {:induction false} FirstForTripAt(updates: seq<Update>, tripId: Id)
    ensures FirstForTrip(updates, tripId).None? <==> forall n :: 0 <= n < |updates| ==> updates[n].tripId != tripId
    ensures forall n :: 0 <= n < |updates| && updates[n].tripId == tripId
                        && (forall m :: 0 <= m < n ==> updates[m].tripId != tripId) ==>
              FirstForTrip(updates, tripId).Some? && HeldTo(updates[n].delay, FirstForTrip(updates, tripId).value)
  {
    if |updates| > 0 {
      var front := updates[..|updates| - 1];
      FirstForTripAt(front, tripId);
      assert forall n :: 0 <= n < |front| ==> front[n] == updates[n];
    }
  }

  lemma {:induction false} FirstAtStopAt(updates: seq<Update>, tripId: Id, stopId: Id)
    ensures FirstAtStop(updates, tripId, stopId).None? <==>
              forall n :: 0 <= n < |updates| ==> !AtStop(updates[n], tripId, stopId)
    ensures forall n :: 0 <= n < |updates| && AtStop(updates[n], tripId, stopId)
                        && (forall m :: 0 <= m < n ==> !AtStop(updates[m], tripId, stopId)) ==>
              FirstAtStop(updates, tripId, stopId).Some? && HeldTo(updates[n].delay, FirstAtStop(updates, tripId, stopId).value)
  {
    if |updates| > 0 {
      var front := updates[..|updates| - 1];
      FirstAtStopAt(front, tripId, stopId);
      assert forall n :: 0 <= n < |front| ==> front[n] == updates[n];
    }
  }

  /** The announced delay is that of the deciding update. */
  lemma AnnouncedByFirst(updates: seq<Update>, tripId: Id, stopId: Id)
    ensures SaysFirst(updates, tripId, stopId, Announced(updates, tripId, stopId))
  {
    FirstForTripAt(updates, tripId);
    FirstAtStopAt(updates, tripId, stopId);
    assert forall n :: 0 <= n < |updates| ==> updates[n] in updates;
  }

  function Widen(b: Bounds, delay: int): Bounds
    requires -U32_MAX <= delay <= U32_MAX
  {
    Bounds(Max(b.maxPositive, Max(delay, 0)), Max(b.maxEarly, Max(-delay, 0)))
  }

  predicate Within(delay: int, b: Bounds) {
    -(b.maxEarly as int) <= delay <= b.maxPositive
  }

  /** `data` records exactly what the updates announce, and its bounds hold every one of their delays. */
  ghost predicate Records(data: RealtimeData, updates: seq<Update>) {
    RecordsTrips(data, updates) && RecordsStops(data, updates) && RecordsBounds(data, updates)
  }

  ghost predicate RecordsTrips(data: RealtimeData, updates: seq<Update>) {
    && (forall t :: (t in data.delaysByTrip) == FirstForTrip(updates, t).Some?)
    && (forall t :: t in data.delaysByTrip ==> Some(data.delaysByTrip[t]) == FirstForTrip(updates, t))
  }

  ghost predicate RecordsStops(data: RealtimeData, updates: seq<Update>) {
    && (forall t, s ::
          (t in data.delaysByTripStop && s in data.delaysByTripStop[t]) == FirstAtStop(updates, t, s).Some?)
    && (forall t, s :: t in data.delaysByTripStop && s in data.delaysByTripStop[t] ==>
          Some(data.delaysByTripStop[t][s]) == FirstAtStop(updates, t, s))
  }

  ghost predicate RecordsBounds(data: RealtimeData, updates: seq<Update>) {
    forall u :: u in updates ==>
      && u.tripId in data.boundsByTrip
      && Within(Clamp(u.delay), data.boundsByTrip[u.tripId])
      && Within(Clamp(u.delay), data.bounds)
  }

  method FromUpdates(updates: seq<Update>) returns (data: RealtimeData)
    ensures Records(data, updates)
    ensures forall t, s :: data.DelaySeconds(t, s) == Announced(updates, t, s)
    ensures forall t, s {:trigger data.DelaySeconds(t, s)} :: SaysFirst(updates, t, s, data.DelaySeconds(t, s))
  {
    data := RealtimeData(map[], map[], Bounds(0, 0), map[]);
    for n := 0 to |updates|
      invariant Records(data, updates[..n])
    {
      var u := updates[n];
      assert updates[..n + 1][..n] == updates[..n];
      assert updates[..n + 1] == updates[..n] + [u];
      RecordUpdateRecords(data, u, updates[..n]);
      data := RecordUpdate(data, u);
    }
    assert updates[..|updates|] == updates;
    forall t, s
      ensures SaysFirst(updates, t, s, data.DelaySeconds(t, s))
    {
      AnnouncedByFirst(updates, t, s);
    }
  }

  /** One round of the loop of `from_updates`: the bounds take in every delay, the delay maps only the first one. */
  function RecordUpdate(data: RealtimeData, u: Update): RealtimeData {
    var delay := Clamp(u.delay);
    var known := if u.tripId in data.boundsByTrip then data.boundsByTrip[u.tripId] else Bounds(0, 0);
    var byStop := if u.tripId in data.delaysByTripStop then data.delaysByTripStop[u.tripId] else map[];
    RealtimeData(
      if u.tripId in data.delaysByTrip then data.delaysByTrip else data.delaysByTrip[u.tripId := delay],
      if u.stopId.None? then data.delaysByTripStop
      else data.delaysByTripStop[
        u.tripId := if u.stopId.value in byStop then byStop else byStop[u.stopId.value := delay]],
      Widen(data.bounds, delay),
      data.boundsByTrip[u.tripId := Widen(known, delay)])
  }

  lemma RecordUpdateRecords(data: RealtimeData, u: Update, earlier: seq<Update>)
    requires Records(data, earlier)
    ensures Records(RecordUpdate(data, u), earlier + [u])
  {
    assert (earlier + [u])[..|earlier|] == earlier;
    FirstsRecorded(data, u, earlier);
    BoundsRecorded(data, u, earlier);
    hide FirstForTrip, FirstAtStop, RecordUpdate;
  }

  lemma FirstsRecorded(data: RealtimeData, u: Update, earlier: seq<Update>)
    requires RecordsTrips(data, earlier) && RecordsStops(data, earlier)
    ensures RecordsTrips(RecordUpdate(data, u), earlier + [u]) && RecordsStops(RecordUpdate(data, u), earlier + [u])
  {
    assert (earlier + [u])[..|earlier|] == earlier;
  }

  lemma BoundsRecorded(data: RealtimeData, u: Update, earlier: seq<Update>)
    requires RecordsBounds(data, earlier)
    ensures RecordsBounds(RecordUpdate(data, u), earlier + [u])
  {
    var r := RecordUpdate(data, u);
    forall v | v in earlier + [u]
      ensures v.tripId in r.boundsByTrip
      ensures Within(Clamp(v.delay), r.boundsByTrip[v.tripId])
      ensures Within(Clamp(v.delay), r.bounds)
    {
      if v in earlier {
        assert Within(Clamp(v.delay), data.boundsByTrip[v.tripId]);
      }
    }
  }

  // ---------------------------------------------------------------- delay bounds of a route

  /** Every delay that a lookup can return lies within the bounds kept for its trip and within the overall bounds. */
  ghost predicate Consistent(data: RealtimeData) {
    forall t, s {:trigger data.DelaySeconds(t, s)} ::
      var d := data.DelaySeconds(t, s);
      d == 0 || (t in data.boundsByTrip && Within(d, data.boundsByTrip[t]) && Within(d, data.bounds))
  }

  lemma {:induction false} AnnouncedBySomeUpdate(updates: seq<Update>, tripId: Id, stopId: Id)
    ensures var a := FirstAtStop(updates, tripId, stopId);
            a.Some? ==> exists u :: u in updates && u.tripId == tripId && Clamp(u.delay) == a.value
    ensures var f := FirstForTrip(updates, tripId);
            f.Some? ==> exists u :: u in updates && u.tripId == tripId && Clamp(u.delay) == f.value
  {
    if |updates| > 0 {
      AnnouncedBySomeUpdate(updates[..|updates| - 1], tripId, stopId);
      assert updates[|updates| - 1] in updates;
    }
  }

  /** The overlay built from any update stream answers every lookup within the bounds it advertises. */
  lemma RecordsConsistent(data: RealtimeData, updates: seq<Update>)
    requires Records(data, updates)
    ensures Consistent(data)
  {
    forall t, s
      ensures var d := data.DelaySeconds(t, s);
              d == 0 || (t in data.boundsByTrip && Within(d, data.boundsByTrip[t]) && Within(d, data.bounds))
    {
      AnnouncedBySomeUpdate(updates, t, s);
    }
  }

  ghost predicate Contains(outer: Bounds, inner: Bounds) {
    inner.maxPositive <= outer.maxPositive && inner.maxEarly <= outer.maxEarly
  }

  /** The bounds kept for route `r` from the trips in `done`: they contain each one's bounds, and each side that is not
      zero is the bound of one of them. */
  ghost predicate RouteBoundsFrom(data: RealtimeData, tt: Timetable, done: set<Id>, r: nat, b: Bounds)
    requires done <= data.boundsByTrip.Keys
  {
    && (forall id :: id in done && id in tt.tripRoute && tt.tripRoute[id] == r ==> Contains(b, data.boundsByTrip[id]))
    && (b.maxPositive == 0 || exists id :: id in done && id in tt.tripRoute && tt.tripRoute[id] == r
                                          && data.boundsByTrip[id].maxPositive == b.maxPositive)
    && (b.maxEarly == 0 || exists id :: id in done && id in tt.tripRoute && tt.tripRoute[id] == r
                                       && data.boundsByTrip[id].maxEarly == b.maxEarly)
  }

  ghost predicate AllRouteBounds(data: RealtimeData, tt: Timetable, done: set<Id>, bounds: seq<Bounds>)
    requires done <= data.boundsByTrip.Keys
  {
    forall r :: 0 <= r < |bounds| ==> RouteBoundsFrom(data, tt, done, r, bounds[r])
  }

  /** One round of the loop of `delay_bounds_by_route`: widen the bounds of the route that holds the trip. */
  function AddTripBounds(data: RealtimeData, tt: Timetable, bounds: seq<Bounds>, id: Id): seq<Bounds>
    requires id in data.boundsByTrip
    requires id in tt.tripRoute ==> tt.tripRoute[id] < |bounds|
  {
    if id !in tt.tripRoute then bounds
    else
      var r := tt.tripRoute[id];
      var b := data.boundsByTrip[id];
      bounds[r := Bounds(Max(bounds[r].maxPositive, b.maxPositive), Max(bounds[r].maxEarly, b.maxEarly))]
  }

  lemma AddTripBoundsHolds(data: RealtimeData, tt: Timetable, done: set<Id>, bounds: seq<Bounds>, id: Id)
    requires id in data.boundsByTrip && done <= data.boundsByTrip.Keys
    requires id in tt.tripRoute ==> tt.tripRoute[id] < |bounds|
    requires AllRouteBounds(data, tt, done, bounds)
    ensures AllRouteBounds(data, tt, done + {id}, AddTripBounds(data, tt, bounds, id))
  {
    var after := AddTripBounds(data, tt, bounds, id);
    forall r | 0 <= r < |after|
      ensures RouteBoundsFrom(data, tt, done + {id}, r, after[r])
    {
      assert RouteBoundsFrom(data, tt, done, r, bounds[r]);
    }
  }

  method DelayBoundsByRoute(data: RealtimeData, tt: Timetable) returns (bounds: seq<Bounds>)
    requires ValidTimetable(tt)
    ensures |bounds| == |tt.routes|
    ensures |tt.tripRoute| == 0 ==> forall r :: 0 <= r < |bounds| ==> bounds[r] == data.bounds
    ensures |tt.tripRoute| != 0 ==> AllRouteBounds(data, tt, data.boundsByTrip.Keys, bounds)
  {
    if |tt.tripRoute| == 0 {
      bounds := seq(|tt.routes|, _ => data.bounds);
    } else {
      bounds := CollectTripBounds(data, tt);
    }
  }

  method CollectTripBounds(data: RealtimeData, tt: Timetable) returns (bounds: seq<Bounds>)
    requires forall id :: id in tt.tripRoute ==> tt.tripRoute[id] < |tt.routes|
    ensures |bounds| == |tt.routes|
    ensures AllRouteBounds(data, tt, data.boundsByTrip.Keys, bounds)
  {
    bounds := seq(|tt.routes|, _ => Bounds(0, 0));
    var todo := data.boundsByTrip.Keys;
    ghost var done: set<Id> := {};
    while todo != {}
      invariant |bounds| == |tt.routes|
      invariant done + todo == data.boundsByTrip.Keys
      invariant AllRouteBounds(data, tt, done, bounds)
      decreases todo
    {
      ghost var some := SomeElement(todo);
      var id :| id in todo;
      todo := todo - {id};
      AddTripBoundsHolds(data, tt, done, bounds, id);
      bounds := AddTripBounds(data, tt, bounds, id);
      done := done + {id};
    }
    assert done == data.boundsByTrip.Keys;
  }

  ghost predicate BoundsHold(data: RealtimeData, tt: Timetable, bounds: seq<Bounds>) {
    && |bounds| == |tt.routes|
    && forall r, t, s {:trigger data.DelaySeconds(tt.routes[r].trips[t].tripId, s)} ::
         0 <= r < |tt.routes| && 0 <= t < |tt.routes[r].trips| ==>
           Within(data.DelaySeconds(tt.routes[r].trips[t].tripId, s), bounds[r])
  }

  /** No lookup for a trip of a route can leave the bounds computed for that route. */
  lemma RouteBoundsHold(data: RealtimeData, tt: Timetable, bounds: seq<Bounds>)
    requires ValidTimetable(tt) && Consistent(data)
    requires |bounds| == |tt.routes|
    requires |tt.tripRoute| == 0 ==> forall r :: 0 <= r < |bounds| ==> bounds[r] == data.bounds
    requires |tt.tripRoute| != 0 ==> AllRouteBounds(data, tt, data.boundsByTrip.Keys, bounds)
    ensures BoundsHold(data, tt, bounds)
  {
    forall r, t, s | 0 <= r < |tt.routes| && 0 <= t < |tt.routes[r].trips|
      ensures Within(data.DelaySeconds(tt.routes[r].trips[t].tripId, s), bounds[r])
    {
      var id := tt.routes[r].trips[t].tripId;
      var d := data.DelaySeconds(id, s);
      if d != 0 && |tt.tripRoute| != 0 {
        assert tt.tripRoute[id] == r;
        assert RouteBoundsFrom(data, tt, data.boundsByTrip.Keys, r, bounds[r]);
        assert Contains(bounds[r], data.boundsByTrip[id]);
      }
    }
  }

  // ---------------------------------------------------------------- the first departure that can be caught

  datatype Catch = Catch(trip: nat, departure: U32)

  function EffectiveDeparture(trips: seq<Trip>, data: RealtimeData, t: nat, position: nat): U32
    requires t < |trips| && position < |trips[t].stopTimes|
  {
    var st := trips[t].stopTimes[position];
    data.AdjustedTime(trips[t].tripId, st.stopId, st.departure)
  }

  predicate Boardable(trips: seq<Trip>, data: RealtimeData, t: nat, position: nat, ready: U32)
    requires t < |trips| && position < |trips[t].stopTimes|
  {
    trips[t].stopTimes[position].pickup && EffectiveDeparture(trips, data, t, position) >= ready
  }

  /** The reference: look at every listed trip and keep the earliest effective departure from `ready` on. */
  ghost function EarliestBoardable(trips: seq<Trip>, indices: seq<nat>, position: nat, ready: U32, data: RealtimeData)
      : Option<Catch>
    requires ListedAt(trips, indices, position)
  {
    if |indices| == 0 then None
    else
      var known := EarliestBoardable(trips, indices[..|indices| - 1], position, ready, data);
      var t := indices[|indices| - 1];
      if Boardable(trips, data, t, position, ready)
         && (known.None? || EffectiveDeparture(trips, data, t, position) < known.value.departure)
      then Some(Catch(t, EffectiveDeparture(trips, data, t, position)))
      else known
  }

  /** `n` is the place in the list of the answer `c`: nothing boardable leaves earlier, and what leaves at the same
      time is listed later. */
  ghost predicate FirstEarliest(trips: seq<Trip>, indices: seq<nat>, position: nat, ready: U32, data: RealtimeData,
                                c: Catch, n: nat)
    requires ListedAt(trips, indices, position)
  {
    && n < |indices|
    && indices[n] == c.trip
    && Boardable(trips, data, c.trip, position, ready)
    && c.departure == EffectiveDeparture(trips, data, c.trip, position)
    && forall m :: 0 <= m < |indices| && Boardable(trips, data, indices[m], position, ready) ==>
         var e := EffectiveDeparture(trips, data, indices[m], position);
         e > c.departure || (e == c.departure && n <= m)
  }

  /** The reference scan finds the minimum, and among equals the one listed first. */
  lemma {:induction false} EarliestBoardableIsFirstMinimum(
      trips: seq<Trip>, indices: seq<nat>, position: nat, ready: U32, data: RealtimeData) returns (n: nat)
    requires ListedAt(trips, indices, position)
    ensures var r := EarliestBoardable(trips, indices, position, ready, data);
            && (r.None? <==> forall m :: 0 <= m < |indices| ==> !Boardable(trips, data, indices[m], position, ready))
            && (r.Some? ==> FirstEarliest(trips, indices, position, ready, data, r.value, n))
  {
    n := 0;
    if |indices| > 0 {
      var front := indices[..|indices| - 1];
      n := EarliestBoardableIsFirstMinimum(trips, front, position, ready, data);
      assert forall m :: 0 <= m < |front| ==> indices[m] == front[m];
      var known := EarliestBoardable(trips, front, position, ready, data);
      if EarliestBoardable(trips, indices, position, ready, data) != known {
        n := |indices| - 1;
      }
    }
  }

  /** Trips that cannot improve on the answer for a prefix leave it unchanged. */
  lemma {:induction false} UselessSuffix(
      trips: seq<Trip>, indices: seq<nat>, position: nat, ready: U32, data: RealtimeData, n: nat)
    requires ListedAt(trips, indices, position) && n <= |indices|
    requires var known := EarliestBoardable(trips, indices[..n], position, ready, data);
             forall m :: n <= m < |indices| && Boardable(trips, data, indices[m], position, ready) ==>
               known.Some? && known.value.departure <= EffectiveDeparture(trips, data, indices[m], position)
    ensures EarliestBoardable(trips, indices, position, ready, data)
         == EarliestBoardable(trips, indices[..n], position, ready, data)
  {
    if n == |indices| {
      assert indices[..n] == indices;
    } else {
      var front := indices[..|indices| - 1];
      assert front[..n] == indices[..n];
      UselessSuffix(trips, front, position, ready, data, n);
    }
  }

  /** `partition_point` on a departure index: the number of listed trips scheduled before `bound`. */
  method FirstDepartureFrom(trips: seq<Trip>, indices: seq<nat>, position: nat, bound: U32) returns (first: nat)
    requires ListedAt(trips, indices, position) && SortedByDeparture(trips, indices, position)
    ensures first <= |indices|
    ensures forall m :: 0 <= m < first ==> trips[indices[m]].stopTimes[position].departure < bound
    ensures forall m :: first <= m < |indices| ==> trips[indices[m]].stopTimes[position].departure >= bound
  {
    var low, high := 0, |indices|;
    while low < high
      invariant 0 <= low <= high <= |indices|
      invariant forall m :: 0 <= m < low ==> trips[indices[m]].stopTimes[position].departure < bound
      invariant forall m :: high <= m < |indices| ==> trips[indices[m]].stopTimes[position].departure >= bound
    {
      var mid := (low + high) / 2;
      if trips[indices[mid]].stopTimes[position].departure < bound {
        low := mid + 1;
      } else {
        high := mid;
      }
    }
    first := low;
  }

  ghost predicate DelaysWithin(trips: seq<Trip>, indices: seq<nat>, position: nat, data: RealtimeData, bounds: Bounds)
    requires ListedAt(trips, indices, position)
  {
    forall m :: 0 <= m < |indices| ==>
      var trip := trips[indices[m]];
      Within(data.DelaySeconds(trip.tripId, trip.stopTimes[position].stopId), bounds)
  }

  /** `earliest_catchable_trip`: binary search plus an early exit, justified by the delay bounds, gives the answer of
      the plain scan over all listed trips. */
  method EarliestCatchable(trips: seq<Trip>, departures: seq<seq<nat>>, position: nat, ready: U32, data: RealtimeData,
                           bounds: Bounds) returns (best: Option<Catch>)
    requires position < |departures| ==>
               && ListedAt(trips, departures[position], position)
               && SortedByDeparture(trips, departures[position], position)
               && DelaysWithin(trips, departures[position], position, data, bounds)
    ensures position >= |departures| ==> best == None
    ensures position < |departures| ==>
              best == EarliestBoardable(trips, departures[position], position, ready, data)
  {
    if position >= |departures| {
      return None;
    }
    var indices := departures[position];
    if bounds.maxPositive == 0 && bounds.maxEarly == 0 {
      best := FirstScheduled(trips, indices, position, ready, data);
    } else {
      best := FirstDelayed(trips, indices, position, ready, data, bounds);
    }
  }

  /** The branch with delays: start at the first trip that a delay could still make catchable, and stop when being
      early cannot help a later one. */
  method FirstDelayed(trips: seq<Trip>, indices: seq<nat>, position: nat, ready: U32, data: RealtimeData,
                      bounds: Bounds) returns (best: Option<Catch>)
    requires ListedAt(trips, indices, position) && SortedByDeparture(trips, indices, position)
    requires DelaysWithin(trips, indices, position, data, bounds)
    ensures best == EarliestBoardable(trips, indices, position, ready, data)
  {
    var first := FirstDepartureFrom(trips, indices, position, SatSub(ready, bounds.maxPositive));
    best := None;
    assert EarliestBoardable(trips, indices[..first], position, ready, data) == None by {
      EarlyDeparturesMissed(trips, indices, position, ready, data, bounds, first);
    }
    for n := first to |indices|
      invariant best == EarliestBoardable(trips, indices[..n], position, ready, data)
    {
      var t := indices[n];
      var st := trips[t].stopTimes[position];
      assert indices[..n + 1][..n] == indices[..n];
      if best.Some? && SatSub(st.departure, bounds.maxEarly) >= best.value.departure {
        LateDeparturesUseless(trips, indices, position, ready, data, bounds, n, best.value);
        return;
      }
      if st.pickup {
        var effective := data.AdjustedTime(trips[t].tripId, st.stopId, st.departure);
        if effective >= ready && (best.None? || effective < best.value.departure) {
          best := Some(Catch(t, effective));
        }
      }
    }
    assert indices[..|indices|] == indices;
  }

  /** The branch without delays: the first listed departure from `ready` on that takes passengers. */
  method FirstScheduled(trips: seq<Trip>, indices: seq<nat>, position: nat, ready: U32, data: RealtimeData)
      returns (best: Option<Catch>)
    requires ListedAt(trips, indices, position) && SortedByDeparture(trips, indices, position)
    requires DelaysWithin(trips, indices, position, data, Bounds(0, 0))
    ensures best == EarliestBoardable(trips, indices, position, ready, data)
  {
    var first := FirstDepartureFrom(trips, indices, position, ready);
    assert EarliestBoardable(trips, indices[..first], position, ready, data) == None by {
      EarlyDeparturesMissed(trips, indices, position, ready, data, Bounds(0, 0), first);
    }
    for n := first to |indices|
      invariant EarliestBoardable(trips, indices[..n], position, ready, data) == None
    {
      assert indices[..n + 1][..n] == indices[..n];
      var st := trips[indices[n]].stopTimes[position];
      if st.pickup {
        best := Some(Catch(indices[n], st.departure));
        FirstFound(trips, indices, position, ready, data, n);
        return;
      }
    }
    assert indices[..|indices|] == indices;
    best := None;
  }

  /** On schedule, the first departure from `ready` on that takes passengers is the earliest. */
  lemma FirstFound(trips: seq<Trip>, indices: seq<nat>, position: nat, ready: U32, data: RealtimeData, n: nat)
    requires ListedAt(trips, indices, position) && SortedByDeparture(trips, indices, position) && n < |indices|
    requires DelaysWithin(trips, indices, position, data, Bounds(0, 0))
    requires EarliestBoardable(trips, indices[..n], position, ready, data) == None
    requires var st := trips[indices[n]].stopTimes[position]; st.pickup && st.departure >= ready
    ensures EarliestBoardable(trips, indices, position, ready, data)
         == Some(Catch(indices[n], trips[indices[n]].stopTimes[position].departure))
  {
    var best := Catch(indices[n], trips[indices[n]].stopTimes[position].departure);
    assert indices[..n + 1][..n] == indices[..n];
    assert EarliestBoardable(trips, indices[..n + 1], position, ready, data) == Some(best);
    LateDeparturesUseless(trips, indices, position, ready, data, Bounds(0, 0), n + 1, best);
  }

  /** A trip scheduled before `ready - maxPositive` has left by `ready`, whatever its delay. */
  lemma {:induction false} EarlyDeparturesMissed(
      trips: seq<Trip>, indices: seq<nat>, position: nat, ready: U32, data: RealtimeData, bounds: Bounds, first: nat)
    requires ListedAt(trips, indices, position) && DelaysWithin(trips, indices, position, data, bounds)
    requires first <= |indices|
    requires forall m :: 0 <= m < first ==>
               trips[indices[m]].stopTimes[position].departure < SatSub(ready, bounds.maxPositive)
    ensures EarliestBoardable(trips, indices[..first], position, ready, data) == None
  {
    if first > 0 {
      EarlyDeparturesMissed(trips, indices, position, ready, data, bounds, first - 1);
      assert indices[..first][..first - 1] == indices[..first - 1];
      var trip := trips[indices[first - 1]];
      assert Within(data.DelaySeconds(trip.tripId, trip.stopTimes[position].stopId), bounds);
    }
  }

  /** Once a scheduled time less `maxEarly` is no better than the answer, no later one is, whatever its delay. */
  lemma LateDeparturesUseless(
      trips: seq<Trip>, indices: seq<nat>, position: nat, ready: U32, data: RealtimeData, bounds: Bounds, n: nat,
      best: Catch)
    requires ListedAt(trips, indices, position) && SortedByDeparture(trips, indices, position)
    requires DelaysWithin(trips, indices, position, data, bounds)
    requires n <= |indices|
    requires EarliestBoardable(trips, indices[..n], position, ready, data) == Some(best)
    requires n < |indices| ==>
               SatSub(trips[indices[n]].stopTimes[position].departure, bounds.maxEarly) >= best.departure
    ensures EarliestBoardable(trips, indices, position, ready, data) == Some(best)
  {
    forall m | n <= m < |indices|
      ensures best.departure <= EffectiveDeparture(trips, data, indices[m], position)
    {
      var trip := trips[indices[m]];
      assert Within(data.DelaySeconds(trip.tripId, trip.stopTimes[position].stopId), bounds);
      assert trips[indices[n]].stopTimes[position].departure <= trip.stopTimes[position].departure;
    }
    UselessSuffix(trips, indices, position, ready, data, n);
  }
}
