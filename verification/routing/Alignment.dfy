/** Moving a leading walk so that it ends when the first vehicle leaves. */
module Alignment {
  import opened Machine
  import opened Itineraries

  function LeadingWalks(legs: seq<Leg>): (n: nat)
    ensures n <= |legs|
    ensures forall i :: 0 <= i < n ==> legs[i].WalkLeg?
    ensures n < |legs| ==> !legs[n].WalkLeg?
  {
    if |legs| == 0 || !legs[0].WalkLeg? then 0 else 1 + LeadingWalks(legs[1..])
  }

  function Duration(leg: Leg): int {
    leg.arrival - leg.departure
  }

  function TotalDuration(legs: seq<Leg>): int {
    if |legs| == 0 then 0 else TotalDuration(legs[..|legs| - 1]) + Duration(legs[|legs| - 1])
  }

  predicate Forward(legs: seq<Leg>) {
    forall i :: 0 <= i < |legs| ==> legs[i].departure <= legs[i].arrival
  }

  lemma {:induction false} ForwardTotal(legs: seq<Leg>, n: nat)
    requires Forward(legs) && n <= |legs|
    ensures 0 <= TotalDuration(legs[..n]) <= TotalDuration(legs)
  {
    if n < |legs| {
      assert legs[..|legs| - 1][..n] == legs[..n];
      ForwardTotal(legs[..|legs| - 1], n);
    } else {
      assert legs[..n] == legs;
      if n > 0 {
        ForwardTotal(legs[..n - 1], 0);
      }
    }
  }

  /** The legs are walks that fit into the time before `end`. */
  predicate Layable(walks: seq<Leg>, end: int) {
    Forward(walks) && (forall i :: 0 <= i < |walks| ==> walks[i].WalkLeg?) && TotalDuration(walks) <= end
  }

  /** The walks laid end to end so that the last one arrives at `end`. */
  function LaidBefore(walks: seq<Leg>, end: U32): seq<Leg>
    requires Layable(walks, end)
  {
    if |walks| == 0 then []
    else
      var front := walks[..|walks| - 1];
      var last := walks[|walks| - 1];
      ForwardTotal(walks, |walks| - 1);
      ForwardTotal(front, |front|);
      LaidBefore(front, end - Duration(last)) + [WalkLeg(last.from, last.to, end - Duration(last), end)]
  }

  /** When the walks can be moved, and the legs after moving them. */
  predicate Alignable(legs: seq<Leg>) {
    var n := LeadingWalks(legs);
    && 0 < n < |legs|
    && Forward(legs[..n])
    && TotalDuration(legs[..n]) <= legs[n].departure
  }

  function Aligned(legs: seq<Leg>): seq<Leg> {
    if Alignable(legs)
    then LaidBefore(legs[..LeadingWalks(legs)], legs[LeadingWalks(legs)].departure) + legs[LeadingWalks(legs)..]
    else legs
  }

  /** Laid walks keep their ends and durations, follow each other without gaps and fill exactly the time before `end`. */
  lemma {:induction false} LaidBeforeFits(walks: seq<Leg>, end: U32)
    requires Layable(walks, end)
    ensures var laid := LaidBefore(walks, end);
            && |laid| == |walks|
            && (forall i :: 0 <= i < |laid| ==>
                  && laid[i].WalkLeg? && laid[i].from == walks[i].from && laid[i].to == walks[i].to
                  && Duration(laid[i]) == Duration(walks[i]))
            && (forall i :: 0 < i < |laid| ==> laid[i - 1].arrival == laid[i].departure)
            && (|laid| > 0 ==> laid[|laid| - 1].arrival == end)
            && (|laid| > 0 ==> laid[0].departure == end - TotalDuration(walks))
  {
    if |walks| > 0 {
      ForwardTotal(walks, |walks| - 1);
      ForwardTotal(walks[..|walks| - 1], |walks| - 1);
      LaidBeforeFits(walks[..|walks| - 1], end - Duration(walks[|walks| - 1]));
    }
  }

  /** `align_leading_walk_to_first_transit_departure`, in place. */
  method AlignLeadingWalk(legs: array<Leg>)
    modifies legs
    ensures legs[..] == Aligned(old(legs[..]))
  {
    var n := 0;
    while n < legs.Length && legs[n].WalkLeg?
      invariant n <= legs.Length
      invariant LeadingWalks(legs[..]) == n + LeadingWalks(legs[n..])
    {
      assert legs[n..][0] == legs[n] && legs[n..][1..] == legs[n + 1..];
      n := n + 1;
    }
    if n >= legs.Length || n == 0 {
      return;
    }
    var total := CheckedTotal(legs[..n]);
    if total.None? || legs[n].departure < total.value {
      return;
    }
    LayBefore(legs, n);
    assert legs[..] == legs[..n] + legs[n..];
  }

  /** The checked durations and their checked sum: none as soon as one of them does not fit. */
  method CheckedTotal(walks: seq<Leg>) returns (total: Option<U32>)
    ensures total == if Forward(walks) && TotalDuration(walks) <= U32_MAX then Some(TotalDuration(walks)) else None
  {
    var sum: U32 := 0;
    for i := 0 to |walks|
      invariant sum == TotalDuration(walks[..i]) && Forward(walks[..i])
    {
      assert walks[..i + 1][..i] == walks[..i] && walks[..i + 1][i] == walks[i];
      if walks[i].arrival < walks[i].departure {
        return None;
      }
      if sum + (walks[i].arrival - walks[i].departure) > U32_MAX {
        TooLong(walks, i + 1);
        return None;
      }
      sum := sum + (walks[i].arrival - walks[i].departure);
    }
    assert walks[..|walks|] == walks;
    ForwardTotal(walks, |walks|);
    total := Some(sum);
  }

  /** The walks from `i` on have been laid before the first ride; the others are to arrive at `next`. */
  ghost predicate Laying(legs: seq<Leg>, was: seq<Leg>, i: nat, laid: seq<Leg>, rest: seq<Leg>, next: int) {
    && i <= |was| && |rest| > 0 && 0 <= next <= U32_MAX
    && legs == was[..i] + laid + rest && |laid| == |was| - i
    && Layable(was, rest[0].departure) && Layable(was[..i], next)
    && LaidBefore(was, rest[0].departure) == LaidBefore(was[..i], next) + laid
  }

  function Moved(leg: Leg, next: int): Leg
    requires leg.WalkLeg? && 0 <= Duration(leg) <= next <= U32_MAX
  {
    WalkLeg(leg.from, leg.to, next - Duration(leg), next)
  }

  lemma LayNext(walks: seq<Leg>, end: U32)
    requires |walks| > 0 && Layable(walks, end)
    ensures var front, last := walks[..|walks| - 1], walks[|walks| - 1];
            && last.WalkLeg? && 0 <= Duration(last) <= end && Layable(front, end - Duration(last))
            && LaidBefore(walks, end) == LaidBefore(front, end - Duration(last)) + [Moved(last, end)]
  {
    ForwardTotal(walks, |walks| - 1);
    ForwardTotal(walks[..|walks| - 1], |walks| - 1);
  }

  lemma LayStep(legs: seq<Leg>, was: seq<Leg>, i: nat, laid: seq<Leg>, rest: seq<Leg>, next: int)
    requires i < |was| && Laying(legs, was, i + 1, laid, rest, next)
    ensures i < |legs| && legs[i].WalkLeg? && 0 <= Duration(legs[i]) <= next <= U32_MAX
    ensures var moved := Moved(legs[i], next);
            Laying(legs[i := moved], was, i, [moved] + laid, rest, next - Duration(legs[i]))
  {
    assert legs[i] == was[i] && was[..i + 1][i] == was[i] && was[..i + 1][..i] == was[..i];
    LayNext(was[..i + 1], next);
    hide Layable, LaidBefore;
    assert legs[i := Moved(was[i], next)] == was[..i] + ([Moved(was[i], next)] + laid) + rest;
  }

  lemma LayFrom(legs: seq<Leg>, n: nat)
    requires n < |legs| && Layable(legs[..n], legs[n].departure)
    ensures Laying(legs, legs[..n], n, [], legs[n..], legs[n].departure)
  {
    var was := legs[..n];
    assert was[..n] == was && legs == was + [] + legs[n..] && legs[n..][0] == legs[n];
    hide Layable, LaidBefore;
    assert LaidBefore(was, legs[n].departure) + [] == LaidBefore(was, legs[n].departure);
  }

  lemma LaidAll(legs: seq<Leg>, was: seq<Leg>, laid: seq<Leg>, rest: seq<Leg>, next: int)
    requires Laying(legs, was, 0, laid, rest, next)
    ensures |laid| == |was| && legs == LaidBefore(was, rest[0].departure) + rest
    ensures LaidBefore(was, rest[0].departure) == laid
  {
  }

  /** The reverse loop over the leading walks. */
  method LayBefore(legs: array<Leg>, n: nat)
    requires n < legs.Length && Layable(legs[..n], legs[n].departure)
    modifies legs
    ensures legs[..] == LaidBefore(old(legs[..n]), old(legs[n]).departure) + old(legs[n..])
  {
    ghost var was, rest, laid := legs[..n], legs[n..], [];
    var next := legs[n].departure;
    LayFrom(legs[..], n);
    assert legs[..][..n] == was && legs[..][n..] == rest;
    for i := n downto 0
      invariant Laying(legs[..], was, i, laid, rest, next)
    {
      hide Laying;
      LayStep(legs[..], was, i, laid, rest, next);
      ghost var before := legs[..];
      var duration := legs[i].arrival - legs[i].departure;
      legs[i] := WalkLeg(legs[i].from, legs[i].to, next - duration, next);
      assert legs[..] == before[i := legs[i]];
      laid := [legs[i]] + laid;
      next := next - duration;
    }
    LaidAll(legs[..], was, laid, rest, next);
  }

  /** A total that overflows on the way is too long in the end. */
  lemma TooLong(walks: seq<Leg>, i: nat)
    requires i <= |walks| && Forward(walks[..i]) && TotalDuration(walks[..i]) > U32_MAX
    ensures !Forward(walks) || TotalDuration(walks) > U32_MAX
  {
    if Forward(walks) {
      ForwardTotal(walks, i);
    }
  }

  // ---------------------------------------------------------------- journeys of the search

  /** The leading walks of an itinerary follow each other from the departure on, and without delays the first vehicle
      does not leave before they are over. */
  ghost predicate WalksFromStart(q: Query, legs: seq<Leg>, time: int) {
    var n := LeadingWalks(legs);
    && Forward(legs[..n])
    && (n == |legs| ==> q.departure + TotalDuration(legs) == time)
    && (n < |legs| && NoDelays(q) ==> legs[n].departure >= q.departure + TotalDuration(legs[..n]))
  }

  lemma {:induction false} LeadingWalksAppend(legs: seq<Leg>, leg: Leg)
    ensures LeadingWalks(legs + [leg])
         == if LeadingWalks(legs) == |legs| && leg.WalkLeg? then |legs| + 1 else LeadingWalks(legs)
  {
    if |legs| > 0 && legs[0].WalkLeg? {
      assert (legs + [leg])[1..] == legs[1..] + [leg];
      LeadingWalksAppend(legs[1..], leg);
    }
  }

  /** One more leg: a walk from `time` to `later`, or a ride that leaves no earlier than `time` on schedule. */
  lemma WalksFromStartAppend(q: Query, before: seq<Leg>, leg: Leg, time: int, later: int)
    requires WalksFromStart(q, before, time)
    requires leg.WalkLeg? ==> leg.departure == time <= later == leg.arrival
    requires leg.RideLeg? && NoDelays(q) ==> leg.departure >= time
    ensures WalksFromStart(q, before + [leg], later)
  {
    hide NoDelays, Forward, TotalDuration, LeadingWalks;
    LeadingWalksAppend(before, leg);
    if LeadingWalks(before) == |before| {
      assert before[..|before|] == before;
      FirstLegs(before, leg);
      if leg.WalkLeg? {
        WalksAppend(before, leg);
      }
    } else {
      KeptPrefix(before, leg, LeadingWalks(before));
    }
  }

  lemma FirstLegs(before: seq<Leg>, leg: Leg)
    ensures (before + [leg])[..|before|] == before && (before + [leg])[|before|] == leg
    ensures (before + [leg])[..|before| + 1] == before + [leg]
  {
  }

  lemma KeptPrefix(before: seq<Leg>, leg: Leg, n: nat)
    requires n < |before|
    ensures (before + [leg])[..n] == before[..n] && (before + [leg])[n] == before[n]
  {
  }

  lemma WalksAppend(before: seq<Leg>, leg: Leg)
    ensures TotalDuration(before + [leg]) == TotalDuration(before) + Duration(leg)
    ensures Forward(before) && leg.departure <= leg.arrival ==> Forward(before + [leg])
  {
    FirstLegs(before, leg);
  }

  lemma {:induction false} ItineraryWalksFromStart(q: Query, it: Itinerary)
    requires Feasible(q, it)
    ensures WalksFromStart(q, LegsOf(q, it), Time(q, it))
    decreases it
  {
    match it
    case Start(_) =>
    case Extend(b, move) =>
      ItineraryWalksFromStart(q, b);
      TimeNonNegative(q, b);
      var legs := LegsOf(q, it);
      var leg := legs[|legs| - 1];
      assert legs == LegsOf(q, b) + [leg];
      if move.Ride? && NoDelays(q) {
        RideOnSchedule(q, it);
      }
      WalksFromStartAppend(q, LegsOf(q, b), leg, Time(q, b), Time(q, it));
  }

  lemma RideOnSchedule(q: Query, it: Itinerary)
    requires Feasible(q, it) && it.Extend? && it.move.Ride? && NoDelays(q)
    ensures RideLegOf(q, it.move, UsesOfficialChange(q, it.before)).departure >= Time(q, it.before)
  {
    var trip := q.tt.routes[it.move.route].trips[it.move.trip];
    assert q.realtime.DelaySeconds(trip.tripId, trip.stopTimes[it.move.board].stopId) == 0;
  }

  /** Without delays, a journey that starts on foot and goes on by vehicle is aligned: every walk keeps its duration,
      the walks follow each other without gaps up to the first departure, and the start is no earlier than asked. */
  lemma LeadingWalkFits(q: Query, it: Itinerary)
    requires Feasible(q, it) && NoDelays(q)
    requires var n := LeadingWalks(LegsOf(q, it)); 0 < n < |LegsOf(q, it)|
    ensures var legs := LegsOf(q, it);
            var aligned := Aligned(legs);
            var n := LeadingWalks(legs);
            && |aligned| == |legs| && aligned[n..] == legs[n..]
            && (forall i :: 0 <= i < n ==>
                  && aligned[i].WalkLeg? && aligned[i].from == legs[i].from && aligned[i].to == legs[i].to
                  && Duration(aligned[i]) == Duration(legs[i]))
            && (forall i :: 0 < i <= n ==> aligned[i - 1].arrival == aligned[i].departure)
            && aligned[0].departure >= q.departure
  {
    var legs := LegsOf(q, it);
    var n := LeadingWalks(legs);
    ItineraryWalksFromStart(q, it);
    LaidBeforeFits(legs[..n], legs[n].departure);
  }
}
