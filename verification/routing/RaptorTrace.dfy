/** Following parents back from a label: it ends, and it spells out a feasible itinerary. */
module RaptorTrace {
  import opened Machine
  import opened Itineraries
  import opened RaptorInvariant
  import opened RaptorHistory

  // ---------------------------------------------------------------- walks of the round in progress

  /** Following `n` walking parents from `from` leads to `to`. */
  ghost predicate WalkChain(f: Front, from: nat, to: nat, n: nat)
    decreases n
  {
    if n == 0 then from == to
    else from in f.parents && f.parents[from].WalkFrom? && WalkChain(f, f.parents[from].previousStop, to, n - 1)
  }

  /** A walking parent has an earlier time, or the same time and a label written earlier; what has no walking parent was
      reached by a ride, or is an origin of round 0. */
  lemma ParentDescends(q: Query, past: Past, f: Front, stop: nat)
    requires RoundInvariant(q, past, f) && stop < q.stopCount == |f.row| == |f.stamp| && f.row[stop] < U32_MAX
    ensures if stop in f.parents && f.parents[stop].WalkFrom? then
              var p := f.parents[stop].previousStop;
              && p < q.stopCount && f.row[p] < U32_MAX
              && (f.row[p] < f.row[stop] || (f.row[p] == f.row[stop] && f.stamp[p] < f.stamp[stop]))
            else if stop in f.parents then f.round > 0
            else f.round == 0 && stop in q.origins
  {
    assert Explained(q, past, f, stop);
  }

  /** In any state of a round, following walks goes to an earlier time, or to a label written earlier. */
  lemma {:induction false} WalkChainDescends(q: Query, past: Past, f: Front, from: nat, to: nat, n: nat)
    requires RoundInvariant(q, past, f) && from < q.stopCount == |f.row| == |f.stamp|
    requires n > 0 && WalkChain(f, from, to, n)
    ensures to < q.stopCount
    ensures f.row[to] < f.row[from] || (f.row[to] == f.row[from] && f.stamp[to] < f.stamp[from])
    decreases n
  {
    assert f.row[from] < U32_MAX;
    hide RoundInvariant;
    ParentDescends(q, past, f, from);
    if n > 1 {
      WalkChainDescends(q, past, f, f.parents[from].previousStop, to, n - 1);
    }
  }

  /** The walking parents of a round never form a cycle, whatever links take no time. */
  lemma NoWalkCycle(q: Query, past: Past, f: Front, stop: nat, n: nat)
    requires RoundInvariant(q, past, f) && stop < q.stopCount && n > 0
    ensures !WalkChain(f, stop, stop, n)
  {
    if WalkChain(f, stop, stop, n) {
      WalkChainDescends(q, past, f, stop, stop, n);
    }
  }

  /** Following walks from any label ends, at a stop reached by a ride or at an origin in round 0. */
  lemma {:induction false} WalkChainEnds(q: Query, past: Past, f: Front, stop: nat) returns (root: nat, n: nat)
    requires RoundInvariant(q, past, f) && stop < q.stopCount == |f.row| == |f.stamp| && f.row[stop] < U32_MAX
    ensures root < q.stopCount && f.row[root] < U32_MAX && WalkChain(f, stop, root, n)
    ensures if root in f.parents then f.round > 0 && f.parents[root].RideFrom? else f.round == 0 && root in q.origins
    decreases f.row[stop], f.stamp[stop]
  {
    hide RoundInvariant;
    ParentDescends(q, past, f, stop);
    if stop in f.parents && f.parents[stop].WalkFrom? {
      root, n := WalkChainEnds(q, past, f, f.parents[stop].previousStop);
      n := n + 1;
    } else {
      root, n := stop, 0;
    }
  }

  // ---------------------------------------------------------------- itineraries behind labels

  /** `it` is what the parents say about the label of `stop` in round `k`. */
  ghost predicate Traces(q: Query, done: seq<Front>, k: nat, stop: nat, it: Itinerary)
    decreases it
  {
    && k < |done| && stop < |done[k].row|
    && match it
       case Start(o) => stop == o && k == 0 && stop !in done[k].parents
       case Extend(b, Walk(l)) =>
         && stop in done[k].parents && done[k].parents[stop].WalkFrom?
         && var WalkFrom(p, d, a) := done[k].parents[stop];
            l.to == stop && l in Links(q, p) && d + l.seconds == a && Traces(q, done, k, p, b)
       case Extend(b, Ride(_, _, _, _)) =>
         && k > 0 && stop in done[k].parents && done[k].parents[stop].RideFrom?
         && RecordsRide(q, k, PastOf(q, done, k), done[k].parents[stop], stop, done[k].row[stop], it.move)
         && Traces(q, done, k - 1, done[k].parents[stop].previousStop, b)
  }

  lemma LabelExplained(q: Query, done: seq<Front>, k: nat, stop: nat)
    requires History(q, done) && k < |done| && stop < q.stopCount && done[k].row[stop] < U32_MAX
    ensures Explained(q, PastOf(q, done, k), done[k], stop) && done[k].round == k
    ensures stop in done[k].parents && done[k].parents[stop].WalkFrom? ==>
              var p := done[k].parents[stop].previousStop;
              p < q.stopCount && done[k].row[p] == done[k].parents[stop].departure
  {
    assert RoundDone(q, done, k);
  }

  /** Behind every label there is an itinerary. */
  lemma {:induction false} TraceBack(q: Query, done: seq<Front>, k: nat, stop: nat) returns (it: Itinerary)
    requires History(q, done) && k < |done| && stop < q.stopCount && done[k].row[stop] < U32_MAX
    ensures Traces(q, done, k, stop, it)
    decreases k, done[k].stamp[stop]
  {
    hide RoundDone;
    LabelExplained(q, done, k, stop);
    if stop !in done[k].parents {
      it := Start(stop);
    } else {
      var parent := done[k].parents[stop];
      var p := parent.previousStop;
      match parent
      case WalkFrom(_, d, a) =>
        var l :| l in Links(q, p) && l.to == stop && d + l.seconds == a;
        var b := TraceBack(q, done, k, p);
        it := Extend(b, Walk(l));
      case RideFrom(_, _, _, _, _, _, _, _, _) =>
        var move :| RecordsRide(q, k, PastOf(q, done, k), parent, stop, done[k].row[stop], move);
        PreviousRound(q, done, k);
        var b := TraceBack(q, done, k - 1, p);
        it := Extend(b, Ride(move.route, move.trip, move.board, move.alight));
    }
  }

  lemma PreviousRound(q: Query, done: seq<Front>, k: nat)
    requires History(q, done) && 0 < k < |done|
    ensures PastOf(q, done, k).row == done[k - 1].row && PastOf(q, done, k).parents == done[k - 1].parents
  {
  }

  /** The itinerary behind a label ends there at the label's time, with one ride per round, and was reached the way the
      parent says. */
  lemma {:induction false} TraceIsFeasible(q: Query, done: seq<Front>, k: nat, stop: nat, it: Itinerary)
    requires History(q, done) && k < |done| && stop < q.stopCount && done[k].row[stop] < U32_MAX
    requires Traces(q, done, k, stop, it)
    ensures Feasible(q, it)
    ensures End(q, it) == stop && Time(q, it) == done[k].row[stop] && Rides(it) == k
    ensures it.Start? <==> stop !in done[k].parents
    ensures it.Extend? ==> (it.move.Ride? <==> done[k].parents[stop].RideFrom?)
    decreases it
  {
    LabelExplained(q, done, k, stop);
    match it
    case Start(_) =>
    case Extend(b, Walk(l)) =>
      TraceIsFeasible(q, done, k, done[k].parents[stop].previousStop, b);
    case Extend(b, Ride(_, _, _, _)) =>
      PreviousRound(q, done, k);
      var p := done[k].parents[stop].previousStop;
      TraceIsFeasible(q, done, k - 1, p, b);
      SlackOfTrace(q, done, k, p, b);
  }

  /** The margin the search used at a stop is the one the itinerary calls for. */
  lemma SlackOfTrace(q: Query, done: seq<Front>, k: nat, stop: nat, b: Itinerary)
    requires 0 < k <= |done| && stop < |done[k - 1].row|
    requires End(q, b) == stop
    requires b.Start? <==> stop !in done[k - 1].parents
    requires b.Start? ==> k == 1
    requires b.Extend? ==> (b.move.Ride? <==> done[k - 1].parents[stop].RideFrom?)
    ensures TransferSlack(q, k, stop, done[k - 1].parents) == (Slack(q, b), UsesOfficialChange(q, b))
  {
  }

  /** The last leg of the itinerary behind a label is the one its parent records. */
  lemma LastLeg(q: Query, done: seq<Front>, k: nat, stop: nat, it: Itinerary)
    requires History(q, done) && k < |done| && stop < q.stopCount && done[k].row[stop] < U32_MAX
    requires Traces(q, done, k, stop, it) && it.Extend?
    ensures Feasible(q, it) && Feasible(q, it.before)
    ensures LegsOf(q, it) == LegsOf(q, it.before) + [ParentLeg(done[k].parents[stop], stop)]
  {
    TraceIsFeasible(q, done, k, stop, it);
    if it.move.Walk? {
      LastWalkLeg(q, done, k, stop, it);
    } else {
      LastRideLeg(q, done, k, stop, it);
    }
  }

  lemma LastWalkLeg(q: Query, done: seq<Front>, k: nat, stop: nat, it: Itinerary)
    requires History(q, done) && k < |done| && stop < q.stopCount && done[k].row[stop] < U32_MAX
    requires Traces(q, done, k, stop, it) && it.Extend? && it.move.Walk? && Feasible(q, it)
    ensures LegsOf(q, it) == LegsOf(q, it.before) + [ParentLeg(done[k].parents[stop], stop)]
  {
    LabelExplained(q, done, k, stop);
    WalkAddsLeg(q, it);
    hide History, Explained, Feasible, LegsOf, PastOf;
    TraceIsFeasible(q, done, k, done[k].parents[stop].previousStop, it.before);
  }

  lemma LastRideLeg(q: Query, done: seq<Front>, k: nat, stop: nat, it: Itinerary)
    requires History(q, done) && k < |done| && stop < q.stopCount && done[k].row[stop] < U32_MAX
    requires Traces(q, done, k, stop, it) && it.Extend? && it.move.Ride? && Feasible(q, it)
    ensures LegsOf(q, it) == LegsOf(q, it.before) + [ParentLeg(done[k].parents[stop], stop)]
  {
    RideTraced(q, done, k, stop, it);
    OfficialTraced(q, done, k, stop, it);
    hide History, Traces, TransferSlack, PastOf, UsesOfficialChange;
    RideAddsLeg(q, it);
    hide Feasible, LegsOf;
    RideParentLeg(q, k, PastOf(q, done, k), done[k].parents[stop], stop, done[k].row[stop], it.move,
                  UsesOfficialChange(q, it.before));
  }

  /** The search and the itinerary agree on whether an official change time was used. */
  lemma OfficialTraced(q: Query, done: seq<Front>, k: nat, stop: nat, it: Itinerary)
    requires History(q, done) && k < |done| && stop < q.stopCount && done[k].row[stop] < U32_MAX
    requires Traces(q, done, k, stop, it) && it.Extend? && it.move.Ride?
    ensures k > 0 && stop in done[k].parents && done[k].parents[stop].RideFrom?
    ensures UsesOfficialChange(q, it.before)
         == TransferSlack(q, k, done[k].parents[stop].previousStop, PastOf(q, done, k).parents).1
  {
    RideTraced(q, done, k, stop, it);
    hide Traces, PastOf, RecordsRide;
    MarginTraced(q, done, k, done[k].parents[stop].previousStop, it.before);
  }

  lemma MarginTraced(q: Query, done: seq<Front>, k: nat, p: nat, b: Itinerary)
    requires History(q, done) && 0 < k < |done| && p < q.stopCount && done[k - 1].row[p] < U32_MAX
    requires Traces(q, done, k - 1, p, b)
    ensures UsesOfficialChange(q, b) == TransferSlack(q, k, p, done[k - 1].parents).1
  {
    TraceIsFeasible(q, done, k - 1, p, b);
    hide History, Traces, Feasible;
    SlackOfTrace(q, done, k, p, b);
  }

  /** What a parent that is a ride says about the round before. */
  lemma RideTraced(q: Query, done: seq<Front>, k: nat, stop: nat, it: Itinerary)
    requires History(q, done) && k < |done| && stop < q.stopCount && done[k].row[stop] < U32_MAX
    requires Traces(q, done, k, stop, it) && it.Extend? && it.move.Ride?
    ensures k > 0 && stop in done[k].parents && done[k].parents[stop].RideFrom?
    ensures var p, past := done[k].parents[stop].previousStop, PastOf(q, done, k);
            && p < q.stopCount && done[k - 1].row[p] < U32_MAX && |done[k - 1].row| == q.stopCount
            && Traces(q, done, k - 1, p, it.before) && past.parents == done[k - 1].parents
            && RecordsRide(q, k, past, done[k].parents[stop], stop, done[k].row[stop], it.move)
  {
    PreviousRound(q, done, k);
    LabelExplained(q, done, k - 1, done[k].parents[stop].previousStop);
  }

  lemma RideParentLeg(q: Query, round: nat, past: Past, parent: Parent, stop: nat, arrival: U32, move: Move,
                      official: bool)
    requires RecordsRide(q, round, past, parent, stop, arrival, move)
    requires official == TransferSlack(q, round, parent.previousStop, past.parents).1
    ensures ParentLeg(parent, stop) == RideLegOf(q, move, official)
  {
  }

  /** The leg that `reconstruct_raptor_journey` makes of a parent. */
  function ParentLeg(parent: Parent, stop: nat): Leg {
    match parent
    case RideFrom(p, _, tripId, routeId, mode, departure, arrival, official, realtime) =>
      RideLeg(p, stop, tripId, routeId, mode, departure, arrival, official, realtime)
    case WalkFrom(p, departure, arrival) => WalkLeg(p, stop, departure, arrival)
  }
}
