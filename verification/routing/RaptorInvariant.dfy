/** The labels of a round-based search as values: what one write does to them, and what every write keeps. */
module RaptorInvariant {
  import opened Machine
  import opened Network
  import opened Itineraries

  datatype Parent =
    | RideFrom(previousStop: nat, previousRound: nat, tripId: Id, routeId: Id, mode: Mode, departure: U32,
               arrival: U32, official: bool, realtime: bool)
    | WalkFrom(previousStop: nat, departure: U32, arrival: U32)

  /** The round in progress. `stamp` and `clock` number the writes; they exist for the proof only. */
  datatype Front = Front(
    round: nat,
    row: seq<U32>,
    parents: map<nat, Parent>,
    stamp: seq<nat>,
    clock: nat,
    best: seq<U32>,
    marked: seq<nat>,
    flags: seq<bool>)

  /** What the round in progress starts from: `best`, the labels and the parents of the round before, and the earliest
      arrival at a target so far. */
  datatype Past = Past(best: seq<U32>, row: seq<U32>, parents: map<nat, Parent>, bound: U32)

  // ---------------------------------------------------------------- reading labels

  /** The earliest of the targets' times, `U32_MAX` when there is none. */
  function TargetBound(targets: seq<nat>, best: seq<U32>): (b: U32)
    requires forall s :: s in targets ==> s < |best|
    ensures forall s :: s in targets ==> b <= best[s]
    ensures b == U32_MAX || exists s :: s in targets && best[s] == b
  {
    if |targets| == 0 then U32_MAX
    else
      assert targets[0] in targets && forall s :: s in targets[1..] ==> s in targets;
      var rest := TargetBound(targets[1..], best);
      assert forall s :: s in targets ==> s == targets[0] || s in targets[1..];
      if best[targets[0]] <= rest then best[targets[0]] else rest
  }

  lemma TargetBoundMonotone(targets: seq<nat>, best: seq<U32>, lower: seq<U32>)
    requires |lower| == |best|
    requires forall s :: s in targets ==> s < |best|
    requires forall s :: 0 <= s < |best| ==> lower[s] <= best[s]
    ensures TargetBound(targets, lower) <= TargetBound(targets, best)
  {
    var b := TargetBound(targets, best);
    if b != U32_MAX {
      var s :| s in targets && best[s] == b;
      assert lower[s] <= b;
    }
  }

  /** The margin added at a stop before boarding in `round`, and whether it is the official one, as the parent found in
      the round before decides it. */
  function TransferSlack(q: Query, round: nat, stop: nat, parents: map<nat, Parent>): (U32, bool) {
    if stop !in parents then
      if round == 1 then (0, false) else (SatAdd(q.minTransfer, q.buffer), false)
    else match parents[stop]
      case WalkFrom(_, _, _) => (q.buffer, false)
      case RideFrom(_, _, _, _, _, _, _, _, _) =>
        match OfficialChange(q, stop)
        case Some(seconds) => (SatAdd(seconds, q.buffer), true)
        case None => (SatAdd(q.minTransfer, q.buffer), false)
  }

  function ReadyTime(q: Query, round: nat, past: Past, stop: nat): U32
    requires stop < |past.row|
  {
    SatAdd(past.row[stop], TransferSlack(q, round, stop, past.parents).0)
  }

  ghost predicate NoLater(lower: seq<U32>, upper: seq<U32>) {
    |lower| == |upper| && forall s :: 0 <= s < |lower| ==> lower[s] <= upper[s]
  }

  // ---------------------------------------------------------------- why a label is there

  ghost predicate LinkUsed(q: Query, from: nat, to: nat, departure: int, arrival: int) {
    exists l :: l in Links(q, from) && l.to == to && departure + l.seconds == arrival
  }

  /** Trip `t` of route `r` can be boarded at position `i` from the labels of the round before. */
  ghost predicate CanBoard(q: Query, round: nat, past: Past, r: nat, t: nat, i: nat) {
    && RouteAllowed(q, r) && TripAllowed(q, r, t) && PicksUp(q, r, t, i)
    && StopAt(q, r, i) < |past.row|
    && past.row[StopAt(q, r, i)] < U32_MAX
    && Departure(q, r, t, i) >= ReadyTime(q, round, past, StopAt(q, r, i))
  }

  /** `parent` records the ride `move`, which reaches `stop` at `arrival`. */
  ghost predicate RecordsRide(q: Query, round: nat, past: Past, parent: Parent, stop: nat, arrival: U32, move: Move) {
    && parent.RideFrom?
    && RidePossible(q, move)
    && CanBoard(q, round, past, move.route, move.trip, move.board)
    && StopAt(q, move.route, move.board) == parent.previousStop
    && StopAt(q, move.route, move.alight) == stop
    && Arrival(q, move.route, move.trip, move.alight) == arrival
    && parent.previousRound == round - 1
    && var leg := RideLegOf(q, move, TransferSlack(q, round, parent.previousStop, past.parents).1);
       && parent.tripId == leg.tripId && parent.routeId == leg.routeId && parent.mode == leg.mode
       && parent.departure == leg.departure && parent.arrival == leg.arrival
       && parent.official == leg.officialChange && parent.realtime == leg.realtime
  }

  ghost predicate RideUsed(q: Query, round: nat, past: Past, parent: Parent, stop: nat, arrival: U32) {
    exists move :: RecordsRide(q, round, past, parent, stop, arrival, move)
  }

  /** A walk starts from a label of the same round that was written earlier and can only have improved since. */
  ghost predicate WalkRecorded(q: Query, f: Front, stop: nat, parent: Parent)
    requires parent.WalkFrom? && |f.row| == |f.stamp| && stop < |f.row|
  {
    var p := parent.previousStop;
    && p < |f.row|
    && parent.arrival == f.row[stop]
    && LinkUsed(q, p, stop, parent.departure, parent.arrival)
    && f.row[p] <= parent.departure
    && (f.row[p] == parent.departure ==> f.stamp[p] < f.stamp[stop])
  }

  ghost predicate Explained(q: Query, past: Past, f: Front, stop: nat)
    requires |f.row| == |f.stamp| && stop < |f.row|
  {
    if stop !in f.parents then f.round == 0 && stop in q.origins && f.row[stop] == q.departure
    else match f.parents[stop]
      case RideFrom(_, _, _, _, _, _, _, _, _) =>
        f.round > 0 && RideUsed(q, f.round, past, f.parents[stop], stop, f.row[stop])
      case WalkFrom(_, _, _) => WalkRecorded(q, f, stop, f.parents[stop])
  }

  // ---------------------------------------------------------------- the invariant of a round

  ghost predicate Shaped(q: Query, past: Past, f: Front) {
    && |f.row| == |f.stamp| == |f.best| == |f.flags| == |past.best| == |past.row| == q.stopCount
    && (forall s :: s in f.parents ==> s < q.stopCount && f.row[s] < U32_MAX)
    && (forall s :: s in f.marked ==> s < q.stopCount)
  }

  /** Labels of the round improve on everything before, `best` holds the latest label of each stop, and every labelled
      stop is marked. */
  ghost predicate Improving(q: Query, past: Past, f: Front)
    requires Shaped(q, past, f)
  {
    && (forall s :: 0 <= s < q.stopCount && f.row[s] == U32_MAX ==> f.best[s] == past.best[s])
    && (forall s :: 0 <= s < q.stopCount && f.row[s] < U32_MAX ==>
          f.best[s] == f.row[s] && f.row[s] < past.best[s] && f.row[s] < past.bound && f.flags[s])
    && (forall s :: 0 <= s < q.stopCount ==> (f.flags[s] <==> s in f.marked))
  }

  ghost predicate OriginsKept(q: Query, f: Front) {
    f.round == 0 ==>
      && (forall s :: 0 <= s < |f.row| ==> f.row[s] >= q.departure)
      && (forall o :: o in q.origins ==> o < |f.row| && f.row[o] == q.departure && o !in f.parents)
  }

  ghost predicate RoundInvariant(q: Query, past: Past, f: Front) {
    && Shaped(q, past, f)
    && Improving(q, past, f)
    && OriginsKept(q, f)
    && (forall s :: 0 <= s < q.stopCount && f.row[s] < U32_MAX ==> f.stamp[s] < f.clock && Explained(q, past, f, s))
  }

  /** The one way labels change: `stop` gets a better time and a new parent. */
  function Write(f: Front, stop: nat, time: U32, parent: Parent): Front
    requires stop < |f.row| == |f.stamp| == |f.best| == |f.flags|
  {
    f.(row := f.row[stop := time],
       best := f.best[stop := time],
       parents := f.parents[stop := parent],
       stamp := f.stamp[stop := f.clock],
       clock := f.clock + 1,
       marked := if f.flags[stop] then f.marked else f.marked + [stop],
       flags := f.flags[stop := true])
  }

  /** A write is sound when its parent explains it at that moment. */
  ghost predicate SoundWrite(q: Query, past: Past, f: Front, stop: nat, time: U32, parent: Parent)
    requires Shaped(q, past, f)
  {
    && stop < q.stopCount
    && time < f.best[stop]
    && time < past.bound
    && match parent
       case RideFrom(_, _, _, _, _, _, _, _, _) => f.round > 0 && RideUsed(q, f.round, past, parent, stop, time)
       case WalkFrom(p, departure, arrival) =>
         && p < q.stopCount
         && f.row[p] == departure < U32_MAX
         && arrival == time
         && LinkUsed(q, p, stop, departure, arrival)
  }

  /** So far the labels of the round have come from rides only. */
  ghost predicate RidesOnly(f: Front) {
    forall s :: s in f.parents ==> f.parents[s].RideFrom?
  }

  lemma WriteKeepsRound(q: Query, past: Past, f: Front, stop: nat, time: U32, parent: Parent)
    requires RoundInvariant(q, past, f) && SoundWrite(q, past, f, stop, time, parent)
    ensures RoundInvariant(q, past, Write(f, stop, time, parent))
  {
    var g := Write(f, stop, time, parent);
    WriteKeepsImproving(q, past, f, stop, time, parent);
    hide Improving;
    forall s | 0 <= s < q.stopCount && g.row[s] < U32_MAX
      ensures Explained(q, past, g, s)
    {
      WriteKeepsExplained(q, past, f, stop, time, parent, s);
    }
    WriteKeepsOrigins(q, past, f, stop, time, parent);
  }

  lemma WriteKeepsImproving(q: Query, past: Past, f: Front, stop: nat, time: U32, parent: Parent)
    requires Shaped(q, past, f) && Improving(q, past, f)
    requires stop < q.stopCount && time < f.best[stop] && time < past.bound
    ensures var g := Write(f, stop, time, parent); Shaped(q, past, g) && Improving(q, past, g)
  {
    var g := Write(f, stop, time, parent);
    assert g.row[stop] == time && time <= U32_MAX - 1;
    assert f.best[stop] <= past.best[stop];
    assert forall s :: s in g.marked <==> s in f.marked || s == stop;
  }

  lemma WriteKeepsExplained(q: Query, past: Past, f: Front, stop: nat, time: U32, parent: Parent, s: nat)
    requires RoundInvariant(q, past, f) && SoundWrite(q, past, f, stop, time, parent)
    requires s < q.stopCount && Write(f, stop, time, parent).row[s] < U32_MAX
    ensures Explained(q, past, Write(f, stop, time, parent), s)
  {
    if s != stop {
      assert Explained(q, past, f, s);
    }
  }

  /** In round 0 nothing arrives before the departure, so an origin keeps its own label. */
  lemma WriteKeepsOrigins(q: Query, past: Past, f: Front, stop: nat, time: U32, parent: Parent)
    requires RoundInvariant(q, past, f) && SoundWrite(q, past, f, stop, time, parent)
    ensures OriginsKept(q, Write(f, stop, time, parent))
  {
    if f.round == 0 {
      assert parent.WalkFrom?;
      assert time >= q.departure;
    }
  }
}
