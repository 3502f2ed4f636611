/** Scanning one route: what the trip being ridden guarantees about every trip that could have been boarded so far. */
module RaptorScanning {
  import opened Machine
  import opened Network
  import opened Realtime
  import opened Itineraries
  import opened RaptorInvariant

  /** The trip being ridden, where it was boarded, and whether the official change time was used there. */
  datatype Aboard = Aboard(trip: nat, board: nat, official: bool)

  /** The departure index the request may use: all trips, or verified trips only. */
  function DepartureLists(q: Query, r: nat): seq<seq<nat>>
    requires r < |q.tt.routes|
  {
    if q.allowUnverified then q.tt.routes[r].departures else q.tt.routes[r].verifiedDepartures
  }

  ghost predicate ListReady(q: Query, r: nat, bounds: Bounds, i: nat)
    requires r < |q.tt.routes| && i < |DepartureLists(q, r)|
  {
    var trips := q.tt.routes[r].trips;
    var list := DepartureLists(q, r)[i];
    && DepartureIndex(trips, list, i, !q.allowUnverified)
    && DelaysWithin(trips, list, i, q.realtime, bounds)
  }

  /** Route `r` is well formed for the search. */
  ghost predicate RouteReady(q: Query, r: nat, bounds: Bounds) {
    && r < |q.tt.routes|
    && |q.tt.routes[r].trips| > 0
    && |DepartureLists(q, r)| == |q.tt.routes[r].stopIndices|
    && (forall t :: 0 <= t < |q.tt.routes[r].trips| ==>
          |q.tt.routes[r].trips[t].stopTimes| == |q.tt.routes[r].stopIndices|)
    && (forall i :: 0 <= i < |q.tt.routes[r].stopIndices| ==> q.tt.routes[r].stopIndices[i] < q.stopCount)
    && (forall i :: 0 <= i < |q.tt.routes[r].stopIndices| ==> ListReady(q, r, bounds, i))
  }

  lemma ValidQueryRouteReady(q: Query, r: nat, bounds: seq<Bounds>)
    requires ValidQuery(q) && r < |q.tt.routes| && BoundsHold(q.realtime, q.tt, bounds)
    ensures RouteReady(q, r, bounds[r])
  {
    assert ValidRoute(q.tt, r);
    var route := q.tt.routes[r];
    forall i | 0 <= i < |route.stopIndices|
      ensures ListReady(q, r, bounds[r], i)
    {
      assert DepartureIndex(route.trips, DepartureLists(q, r)[i], i, !q.allowUnverified);
    }
  }

  ghost predicate EvenLengths(q: Query, r: nat) {
    forall x, y, j :: TripAllowed(q, r, x) && IsVisit(q, r, y, j) ==> IsVisit(q, r, x, j)
  }

  ghost predicate BoundsReady(q: Query, bounds: seq<Bounds>) {
    && |bounds| == |q.tt.routes|
    && forall r :: 0 <= r < |bounds| ==> RouteReady(q, r, bounds[r]) && EvenLengths(q, r)
  }

  lemma ValidQueryBoundsReady(q: Query, bounds: seq<Bounds>)
    requires ValidQuery(q) && BoundsHold(q.realtime, q.tt, bounds)
    ensures BoundsReady(q, bounds)
  {
    forall r | 0 <= r < |bounds|
      ensures RouteReady(q, r, bounds[r]) && EvenLengths(q, r)
    {
      ValidQueryRouteReady(q, r, bounds);
    }
  }

  /** Trip `x` is never behind trip `t` from position `index` on. */
  ghost predicate Ahead(q: Query, r: nat, x: nat, t: nat, index: nat) {
    forall j :: index <= j && IsVisit(q, r, t, j) && IsVisit(q, r, x, j) ==>
      Arrival(q, r, x, j) <= Arrival(q, r, t, j) && Departure(q, r, x, j) <= Departure(q, r, t, j)
  }

  lemma OrderlyAhead(q: Query, r: nat, x: nat, t: nat, i: nat)
    requires Orderly(q, r) && TripAllowed(q, r, x) && TripAllowed(q, r, t)
    requires Departure(q, r, x, i) <= Departure(q, r, t, i)
    ensures Ahead(q, r, x, t, i + 1)
  {
    forall j | i + 1 <= j && IsVisit(q, r, t, j) && IsVisit(q, r, x, j)
      ensures Arrival(q, r, x, j) <= Arrival(q, r, t, j) && Departure(q, r, x, j) <= Departure(q, r, t, j)
    {
      assert Comparable(q, r, x, t, i, j);
    }
  }

  ghost predicate Leads(q: Query, round: nat, past: Past, r: nat, start: nat, index: nat, current: Option<Aboard>) {
    forall t, i :: start <= i < index && CanBoard(q, round, past, r, t, i) ==>
      current.Some? && Ahead(q, r, current.value.trip, t, index)
  }

  /** The trip being ridden before position `index` could be boarded where it was, and on an orderly route it leads all
      trips that could be boarded since `start`. */
  ghost predicate Riding(q: Query, round: nat, past: Past, r: nat, start: nat, index: nat, current: Option<Aboard>) {
    && (current.Some? ==>
          var a := current.value;
          && start <= a.board < index
          && CanBoard(q, round, past, r, a.trip, a.board)
          && a.official == TransferSlack(q, round, StopAt(q, r, a.board), past.parents).1)
    && (Orderly(q, r) ==> Leads(q, round, past, r, start, index, current))
  }

  ghost predicate Reached(best: seq<U32>, bound: U32, stop: nat, time: U32) {
    stop < |best| && (best[stop] <= time || bound <= time)
  }

  ghost predicate ServedFrom(q: Query, round: nat, past: Past, r: nat, best: seq<U32>, bound: U32, start: nat,
                             index: nat) {
    forall t, i, j :: start <= i < j < index && CanBoard(q, round, past, r, t, i) && DropsOff(q, r, t, j) ==>
      Reached(best, bound, StopAt(q, r, j), Arrival(q, r, t, j))
  }

  /** On an orderly route, every ride from a label of the round before that ends before `index` is accounted for. */
  ghost predicate Served(q: Query, round: nat, past: Past, r: nat, best: seq<U32>, bound: U32, start: nat, index: nat) {
    Orderly(q, r) ==> ServedFrom(q, round, past, r, best, bound, start, index)
  }

  lemma NothingServed(q: Query, round: nat, past: Past, r: nat, best: seq<U32>, bound: U32, start: nat)
    ensures Served(q, round, past, r, best, bound, start, start)
  {
  }

  lemma NothingLeads(q: Query, round: nat, past: Past, r: nat, start: nat)
    ensures Riding(q, round, past, r, start, start, None)
  {
  }

  lemma ServedStays(q: Query, round: nat, past: Past, r: nat, best: seq<U32>, bound: U32, start: nat, index: nat,
                    lower: seq<U32>)
    requires Served(q, round, past, r, best, bound, start, index) && NoLater(lower, best)
    ensures Served(q, round, past, r, lower, bound, start, index)
  {
    if Orderly(q, r) {
      forall t, i, j | start <= i < j < index && CanBoard(q, round, past, r, t, i) && DropsOff(q, r, t, j)
        ensures Reached(lower, bound, StopAt(q, r, j), Arrival(q, r, t, j))
      {
        assert Reached(best, bound, StopAt(q, r, j), Arrival(q, r, t, j));
      }
    }
  }

  /** Getting off the leading trip at `index` accounts for every trip that could be boarded earlier. */
  lemma AlightStep(q: Query, round: nat, past: Past, r: nat, start: nat, index: nat, current: Option<Aboard>,
                   best: seq<U32>, bound: U32, after: seq<U32>)
    requires Riding(q, round, past, r, start, index, current)
    requires Served(q, round, past, r, best, bound, start, index)
    requires NoLater(after, best)
    requires current.Some? && DropsOff(q, r, current.value.trip, index) ==>
               Reached(after, bound, StopAt(q, r, index), Arrival(q, r, current.value.trip, index))
    ensures Served(q, round, past, r, after, bound, start, index + 1)
  {
    ServedStays(q, round, past, r, best, bound, start, index, after);
    if Orderly(q, r) {
      forall t, i, j | start <= i < j < index + 1 && CanBoard(q, round, past, r, t, i) && DropsOff(q, r, t, j)
        ensures Reached(after, bound, StopAt(q, r, j), Arrival(q, r, t, j))
      {
        if j == index {
          assert Ahead(q, r, current.value.trip, t, index);
          assert DropsOff(q, r, current.value.trip, index);
        }
      }
    }
  }

  /** `c` is the first trip that can be caught at position `i` from `ready` on. */
  ghost predicate Catches(q: Query, r: nat, i: nat, ready: U32, c: Option<Catch>) {
    && (c.Some? ==>
          && TripAllowed(q, r, c.value.trip) && PicksUp(q, r, c.value.trip, i)
          && c.value.departure == Departure(q, r, c.value.trip, i) >= ready)
    && (forall t :: TripAllowed(q, r, t) && PicksUp(q, r, t, i) && Departure(q, r, t, i) >= ready ==>
          c.Some? && c.value.departure <= Departure(q, r, t, i))
  }

  lemma EarliestBoardableCatches(q: Query, r: nat, i: nat, ready: U32, bounds: Bounds)
    requires RouteReady(q, r, bounds) && i < |q.tt.routes[r].stopIndices|
    ensures ListReady(q, r, bounds, i)
    ensures Catches(q, r, i, ready,
                    EarliestBoardable(q.tt.routes[r].trips, DepartureLists(q, r)[i], i, ready, q.realtime))
  {
    assert ListReady(q, r, bounds, i);
    var trips := q.tt.routes[r].trips;
    var list := DepartureLists(q, r)[i];
    var c := EarliestBoardable(trips, list, i, ready, q.realtime);
    var n := EarliestBoardableIsFirstMinimum(trips, list, i, ready, q.realtime);
    if c.Some? {
      assert list[n] in list;
    }
    forall t | TripAllowed(q, r, t) && PicksUp(q, r, t, i) && Departure(q, r, t, i) >= ready
      ensures c.Some? && c.value.departure <= Departure(q, r, t, i)
    {
      assert t in list;
      var m :| 0 <= m < |list| && list[m] == t;
      assert Boardable(trips, q.realtime, list[m], i, ready);
    }
  }

  /** Nothing can be boarded at `index`. */
  lemma NoBoarding(q: Query, round: nat, past: Past, r: nat, start: nat, index: nat, current: Option<Aboard>)
    requires Riding(q, round, past, r, start, index, current)
    requires StopAt(q, r, index) < |past.row| ==>
               forall t :: !CanBoard(q, round, past, r, t, index)
    ensures Riding(q, round, past, r, start, index + 1, current)
  {
    hide Orderly, TransferSlack;
    if Orderly(q, r) {
      NobodyNew(q, round, past, r, start, index, current);
    }
  }

  lemma NobodyNew(q: Query, round: nat, past: Past, r: nat, start: nat, index: nat, current: Option<Aboard>)
    requires Orderly(q, r) && Leads(q, round, past, r, start, index, current)
    requires forall t :: !CanBoard(q, round, past, r, t, index)
    ensures Leads(q, round, past, r, start, index + 1, current)
  {
  }

  /** The trip to ride on after position `index`: the caught trip if it leaves strictly earlier than the current one. */
  function Switch(q: Query, r: nat, index: nat, current: Option<Aboard>, c: Catch, official: bool): Option<Aboard> {
    if current.None? || c.departure < Departure(q, r, current.value.trip, index)
    then Some(Aboard(c.trip, index, official))
    else current
  }

  lemma BoardStep(q: Query, round: nat, past: Past, r: nat, start: nat, index: nat, current: Option<Aboard>,
                  c: Option<Catch>)
    requires start <= index && Riding(q, round, past, r, start, index, current)
    requires RouteAllowed(q, r) && EvenLengths(q, r)
    requires StopAt(q, r, index) < |past.row| && past.row[StopAt(q, r, index)] < U32_MAX
    requires Catches(q, r, index, ReadyTime(q, round, past, StopAt(q, r, index)), c)
    ensures var official := TransferSlack(q, round, StopAt(q, r, index), past.parents).1;
            var next := if c.None? then current else Switch(q, r, index, current, c.value, official);
            Riding(q, round, past, r, start, index + 1, next)
  {
    var official := TransferSlack(q, round, StopAt(q, r, index), past.parents).1;
    var next := if c.None? then current else Switch(q, r, index, current, c.value, official);
    if c.Some? {
      assert CanBoard(q, round, past, r, c.value.trip, index);
    }
    if Orderly(q, r) {
      forall t, i | start <= i < index + 1 && CanBoard(q, round, past, r, t, i)
        ensures next.Some? && Ahead(q, r, next.value.trip, t, index + 1)
      {
        LeadStep(q, round, past, r, start, index, current, c, t, i);
      }
    }
  }

  /** One trip that could be boarded, at `index` or before: the trip ridden next leads it. */
  lemma LeadStep(q: Query, round: nat, past: Past, r: nat, start: nat, index: nat, current: Option<Aboard>,
                 c: Option<Catch>, t: nat, i: nat)
    requires start <= i < index + 1 && CanBoard(q, round, past, r, t, i)
    requires Orderly(q, r) && Leads(q, round, past, r, start, index, current)
    requires EvenLengths(q, r) && (current.Some? ==> TripAllowed(q, r, current.value.trip))
    requires StopAt(q, r, index) < |past.row| && past.row[StopAt(q, r, index)] < U32_MAX
    requires Catches(q, r, index, ReadyTime(q, round, past, StopAt(q, r, index)), c)
    ensures var official := TransferSlack(q, round, StopAt(q, r, index), past.parents).1;
            var next := if c.None? then current else Switch(q, r, index, current, c.value, official);
            next.Some? && Ahead(q, r, next.value.trip, t, index + 1)
  {
    hide Orderly, Comparable;
    if i == index {
      var official := TransferSlack(q, round, StopAt(q, r, index), past.parents).1;
      OrderlyAhead(q, r, Switch(q, r, index, current, c.value, official).value.trip, t, index);
    } else {
      assert current.Some? && Ahead(q, r, current.value.trip, t, index);
      if c.Some? && c.value.departure < Departure(q, r, current.value.trip, index) {
        OrderlyAhead(q, r, c.value.trip, current.value.trip, index);
        AheadThrough(q, r, c.value.trip, current.value.trip, t, index);
      }
    }
  }

  lemma AheadThrough(q: Query, r: nat, x: nat, y: nat, t: nat, index: nat)
    requires Ahead(q, r, x, y, index + 1) && Ahead(q, r, y, t, index)
    requires forall j :: IsVisit(q, r, t, j) ==> IsVisit(q, r, y, j)
    ensures Ahead(q, r, x, t, index + 1)
  {
  }

  /** The parent a ride leaves at the stop where it ends. */
  function RideParent(q: Query, round: nat, r: nat, a: Aboard, index: nat): Parent
    requires round > 0 && IsVisit(q, r, a.trip, a.board) && IsVisit(q, r, a.trip, index)
  {
    var trip := q.tt.routes[r].trips[a.trip];
    RideFrom(StopAt(q, r, a.board), round - 1, trip.tripId, trip.routeId, trip.mode,
             trip.stopTimes[a.board].departure, trip.stopTimes[index].arrival, a.official,
             Departure(q, r, a.trip, a.board) != trip.stopTimes[a.board].departure
             || Arrival(q, r, a.trip, index) != trip.stopTimes[index].arrival)
  }

  /** The round after getting off at `index`: written to exactly when the arrival is an improvement below the bound. */
  function Alighted(q: Query, f: Front, r: nat, a: Aboard, index: nat, bound: U32): Front
    requires f.round > 0 && IsVisit(q, r, a.trip, a.board) && IsVisit(q, r, a.trip, index)
    requires StopAt(q, r, index) < |f.row| == |f.stamp| == |f.best| == |f.flags|
  {
    var arrival := Arrival(q, r, a.trip, index);
    if arrival < bound && arrival < f.best[StopAt(q, r, index)]
    then Write(f, StopAt(q, r, index), arrival, RideParent(q, f.round, r, a, index))
    else f
  }

  lemma RideIsSound(q: Query, past: Past, f: Front, r: nat, a: Aboard, index: nat)
    requires RoundInvariant(q, past, f) && f.round > 0
    requires a.board < index && CanBoard(q, f.round, past, r, a.trip, a.board) && DropsOff(q, r, a.trip, index)
    requires a.official == TransferSlack(q, f.round, StopAt(q, r, a.board), past.parents).1
    requires StopAt(q, r, index) < q.stopCount
    requires Arrival(q, r, a.trip, index) < past.bound
    requires Arrival(q, r, a.trip, index) < f.best[StopAt(q, r, index)]
    ensures SoundWrite(q, past, f, StopAt(q, r, index), Arrival(q, r, a.trip, index),
                       RideParent(q, f.round, r, a, index))
  {
    assert RecordsRide(q, f.round, past, RideParent(q, f.round, r, a, index), StopAt(q, r, index),
                       Arrival(q, r, a.trip, index), Ride(r, a.trip, a.board, index));
  }

  lemma RideWriteKeeps(q: Query, past: Past, f: Front, r: nat, a: Aboard, index: nat)
    requires RoundInvariant(q, past, f) && f.round > 0 && RidesOnly(f)
    requires a.board < index && CanBoard(q, f.round, past, r, a.trip, a.board) && DropsOff(q, r, a.trip, index)
    requires a.official == TransferSlack(q, f.round, StopAt(q, r, a.board), past.parents).1
    requires StopAt(q, r, index) < q.stopCount == |f.best| == |f.row| == |f.stamp| == |f.flags|
    requires Arrival(q, r, a.trip, index) < past.bound
    requires Arrival(q, r, a.trip, index) < f.best[StopAt(q, r, index)]
    ensures var g := Write(f, StopAt(q, r, index), Arrival(q, r, a.trip, index), RideParent(q, f.round, r, a, index));
            && RoundInvariant(q, past, g) && RidesOnly(g) && NoLater(g.best, f.best)
            && Reached(g.best, past.bound, StopAt(q, r, index), Arrival(q, r, a.trip, index))
  {
    var stop, arrival, parent := StopAt(q, r, index), Arrival(q, r, a.trip, index), RideParent(q, f.round, r, a, index);
    RideIsSound(q, past, f, r, a, index);
    hide CanBoard, SoundWrite, Arrival, StopAt;
    WriteKeepsRound(q, past, f, stop, arrival, parent);
    hide RoundInvariant;
    RideWriteImproves(f, stop, arrival, parent, past.bound);
  }

  /** What a label from a ride does not disturb. */
  lemma RideWriteImproves(f: Front, stop: nat, time: U32, parent: Parent, bound: U32)
    requires stop < |f.best| == |f.row| == |f.stamp| == |f.flags| && time < f.best[stop]
    requires RidesOnly(f) && parent.RideFrom?
    ensures var g := Write(f, stop, time, parent);
            RidesOnly(g) && NoLater(g.best, f.best) && Reached(g.best, bound, stop, time)
  {
  }

  lemma NoRideWrite(q: Query, best: seq<U32>, r: nat, a: Aboard, index: nat, bound: U32)
    requires StopAt(q, r, index) < |best|
    requires Arrival(q, r, a.trip, index) >= bound || Arrival(q, r, a.trip, index) >= best[StopAt(q, r, index)]
    ensures NoLater(best, best) && Reached(best, bound, StopAt(q, r, index), Arrival(q, r, a.trip, index))
  {
  }

  // ---------------------------------------------------------------- which routes a round scans

  /** Visits of timetable stops are listed under the stop, and only visits are. */
  ghost predicate StopRoutesExact(q: Query) {
    && |q.tt.stopRoutes| == |q.tt.stops|
    && (forall s, e :: 0 <= s < |q.tt.stopRoutes| && e in q.tt.stopRoutes[s] ==> Visits(q.tt, e.0, e.1, s))
    && (forall r: nat, i: nat, s: nat :: s < |q.tt.stopRoutes| && Visits(q.tt, r, i, s) ==>
          (r, i) in q.tt.stopRoutes[s])
    && (forall r: nat, i: nat, s: nat :: Visits(q.tt, r, i, s) ==> s < |q.tt.stopRoutes|)
  }

  lemma ValidQueryStopRoutesExact(q: Query)
    requires ValidQuery(q)
    ensures StopRoutesExact(q)
  {
    forall r: nat, i: nat, s: nat | Visits(q.tt, r, i, s)
      ensures s < |q.tt.stopRoutes|
    {
      assert ValidRoute(q.tt, r);
    }
  }

  /** Some queued scan of route `r` starts at `i` or before. */
  ghost predicate Queued(queue: seq<(nat, nat)>, r: nat, i: nat) {
    exists n :: 0 <= n < |queue| && queue[n].0 == r && queue[n].1 <= i
  }

  /** `positions` finds the queue entry of each queued route and is -1 for the others. */
  ghost predicate PositionsFit(positions: seq<int>, queue: seq<(nat, nat)>) {
    && (forall r :: 0 <= r < |positions| ==> -1 <= positions[r] < |queue|)
    && (forall r :: 0 <= r < |positions| && positions[r] >= 0 ==> queue[positions[r]].0 == r)
    && (forall n :: 0 <= n < |queue| ==> queue[n].0 < |positions| && positions[queue[n].0] == n)
  }

  ghost predicate EntriesInRange(q: Query, queue: seq<(nat, nat)>) {
    forall n :: 0 <= n < |queue| ==>
      queue[n].0 < |q.tt.routes| && queue[n].1 < |q.tt.routes[queue[n].0].stopIndices|
  }

  /** Every visit of the stop is covered by the queue. */
  ghost predicate StopQueued(q: Query, queue: seq<(nat, nat)>, stop: nat) {
    stop < |q.tt.stopRoutes| ==> forall e :: e in q.tt.stopRoutes[stop] ==> Queued(queue, e.0, e.1)
  }

  /** Queues only grow, and their starts only move forward to earlier positions. */
  ghost predicate Extends(queue: seq<(nat, nat)>, longer: seq<(nat, nat)>) {
    && |queue| <= |longer|
    && forall n :: 0 <= n < |queue| ==> longer[n].0 == queue[n].0 && longer[n].1 <= queue[n].1
  }

  /** One visit of a marked stop: the route joins the queue, or its scan starts earlier. */
  function Enqueue(positions: seq<int>, queue: seq<(nat, nat)>, r: nat, i: nat): seq<(nat, nat)>
    requires r < |positions| && -1 <= positions[r] < |queue|
  {
    if positions[r] == -1 then queue + [(r, i)]
    else if i < queue[positions[r]].1 then queue[positions[r] := (queue[positions[r]].0, i)]
    else queue
  }

  lemma EnqueueFits(q: Query, positions: seq<int>, queue: seq<(nat, nat)>, r: nat, i: nat)
    requires PositionsFit(positions, queue) && EntriesInRange(q, queue) && r < |positions|
    requires r < |q.tt.routes| && i < |q.tt.routes[r].stopIndices|
    ensures var longer := Enqueue(positions, queue, r, i);
            && PositionsFit(if positions[r] == -1 then positions[r := |queue|] else positions, longer)
            && EntriesInRange(q, longer) && Extends(queue, longer) && Queued(longer, r, i)
  {
    var longer := Enqueue(positions, queue, r, i);
    var n := if positions[r] == -1 then |queue| else positions[r];
    assert longer[n].0 == r && longer[n].1 <= i;
  }

  lemma PositionInRange(positions: seq<int>, queue: seq<(nat, nat)>, r: nat)
    requires PositionsFit(positions, queue) && r < |positions|
    ensures -1 <= positions[r] < |queue|
  {
  }

  lemma NothingQueued(queue: seq<(nat, nat)>, visits: seq<(nat, nat)>)
    ensures Extends(queue, queue) && VisitsQueued(queue, visits, 0)
  {
  }

  /** The first `n` visits are queued. */
  ghost predicate VisitsQueued(queue: seq<(nat, nat)>, visits: seq<(nat, nat)>, n: nat)
    requires n <= |visits|
  {
    forall m :: 0 <= m < n ==> Queued(queue, visits[m].0, visits[m].1)
  }

  lemma VisitsQueuedStep(shorter: seq<(nat, nat)>, queue: seq<(nat, nat)>, longer: seq<(nat, nat)>,
                         visits: seq<(nat, nat)>, n: nat)
    requires n < |visits| && VisitsQueued(queue, visits, n)
    requires Extends(shorter, queue) && Extends(queue, longer) && Queued(longer, visits[n].0, visits[n].1)
    ensures Extends(shorter, longer) && VisitsQueued(longer, visits, n + 1)
  {
    forall m | 0 <= m < n + 1
      ensures Queued(longer, visits[m].0, visits[m].1)
    {
      if m < n {
        ExtendsKeepsQueued(queue, longer, visits[m].0, visits[m].1);
      }
    }
  }

  lemma AllVisitsQueued(q: Query, queue: seq<(nat, nat)>, stop: nat)
    requires stop < |q.tt.stopRoutes|
    requires VisitsQueued(queue, q.tt.stopRoutes[stop], |q.tt.stopRoutes[stop]|)
    ensures StopQueued(q, queue, stop)
  {
    forall e | e in q.tt.stopRoutes[stop]
      ensures Queued(queue, e.0, e.1)
    {
      var m :| 0 <= m < |q.tt.stopRoutes[stop]| && q.tt.stopRoutes[stop][m] == e;
      assert Queued(queue, q.tt.stopRoutes[stop][m].0, q.tt.stopRoutes[stop][m].1);
    }
  }

  lemma ExtendsKeepsQueued(queue: seq<(nat, nat)>, longer: seq<(nat, nat)>, r: nat, i: nat)
    requires Extends(queue, longer) && Queued(queue, r, i)
    ensures Queued(longer, r, i)
  {
    var n :| 0 <= n < |queue| && queue[n].0 == r && queue[n].1 <= i;
    assert longer[n].0 == r;
  }

  lemma ExtendsKeepsStopQueued(q: Query, queue: seq<(nat, nat)>, longer: seq<(nat, nat)>, stop: nat)
    requires Extends(queue, longer) && StopQueued(q, queue, stop)
    ensures StopQueued(q, longer, stop)
  {
    if stop < |q.tt.stopRoutes| {
      forall e | e in q.tt.stopRoutes[stop]
        ensures Queued(longer, e.0, e.1)
      {
        ExtendsKeepsQueued(queue, longer, e.0, e.1);
      }
    }
  }

  /** The first `n` scans of the queue have been made. */
  ghost predicate QueueServed(q: Query, round: nat, past: Past, queue: seq<(nat, nat)>, n: nat, best: seq<U32>,
                              bound: U32)
    requires EntriesInRange(q, queue) && n <= |queue|
  {
    forall m :: 0 <= m < n && RouteAllowed(q, queue[m].0) ==>
      Served(q, round, past, queue[m].0, best, bound, queue[m].1, |q.tt.routes[queue[m].0].stopIndices|)
  }

  lemma QueueServedStays(q: Query, round: nat, past: Past, queue: seq<(nat, nat)>, n: nat, best: seq<U32>, bound: U32,
                         lower: seq<U32>)
    requires EntriesInRange(q, queue) && n <= |queue|
    requires QueueServed(q, round, past, queue, n, best, bound) && NoLater(lower, best)
    ensures QueueServed(q, round, past, queue, n, lower, bound)
  {
    forall m | 0 <= m < n && RouteAllowed(q, queue[m].0)
      ensures Served(q, round, past, queue[m].0, lower, bound, queue[m].1, |q.tt.routes[queue[m].0].stopIndices|)
    {
      ServedStays(q, round, past, queue[m].0, best, bound, queue[m].1, |q.tt.routes[queue[m].0].stopIndices|, lower);
    }
  }

  ghost predicate AllServed(q: Query, round: nat, past: Past, best: seq<U32>, bound: U32) {
    forall r: nat :: RouteAllowed(q, r) ==>
      Served(q, round, past, r, best, bound, 0, |q.tt.routes[r].stopIndices|)
  }

  ghost predicate QueueCovers(q: Query, past: Past, queue: seq<(nat, nat)>) {
    forall s :: 0 <= s < |past.row| && past.row[s] < U32_MAX ==> StopQueued(q, queue, s)
  }

  /** Scanning only the routes through marked stops, each from its first marked stop, misses no ride: whatever can be
      boarded is boarded at a labelled stop, and labelled stops are marked. */
  lemma QueueServesAll(q: Query, round: nat, past: Past, queue: seq<(nat, nat)>, best: seq<U32>,
                       bound: U32)
    requires StopRoutesExact(q) && EntriesInRange(q, queue)
    requires QueueCovers(q, past, queue)
    requires QueueServed(q, round, past, queue, |queue|, best, bound)
    ensures AllServed(q, round, past, best, bound)
  {
    forall r: nat | RouteAllowed(q, r)
      ensures Served(q, round, past, r, best, bound, 0, |q.tt.routes[r].stopIndices|)
    {
      var len := |q.tt.routes[r].stopIndices|;
      if Orderly(q, r) {
        forall t, i, j | 0 <= i < j < len && CanBoard(q, round, past, r, t, i) && DropsOff(q, r, t, j)
          ensures Reached(best, bound, StopAt(q, r, j), Arrival(q, r, t, j))
        {
          var s := StopAt(q, r, i);
          assert Visits(q.tt, r, i, s);
          assert (r, i) in q.tt.stopRoutes[s];
          assert StopQueued(q, queue, s);
          assert Queued(queue, r, i);
          var n :| 0 <= n < |queue| && queue[n].0 == r && queue[n].1 <= i;
          assert Served(q, round, past, queue[n].0, best, bound, queue[n].1, len);
        }
      }
    }
  }
}
