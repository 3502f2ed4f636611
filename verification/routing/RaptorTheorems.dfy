/** What the labels of a finished search say about itineraries: no robust itinerary beats them, each of them is the time
    of a feasible itinerary, and rounds are strictly better than the rounds before. */
module RaptorTheorems {
  import opened Machine
  import opened Network
  import opened Itineraries
  import opened RaptorInvariant
  import opened RaptorWalking
  import opened RaptorScanning
  import opened RaptorHistory

  // ---------------------------------------------------------------- best times over rounds

  /** How round `k` relates to the round before. */
  lemma RoundImproves(q: Query, done: seq<Front>, k: nat)
    requires History(q, done) && k < |done|
    ensures forall s :: 0 <= s < q.stopCount && done[k].row[s] < U32_MAX ==> done[k].best[s] == done[k].row[s]
    ensures k == 0 ==> done[k].best == done[k].row
    ensures k > 0 ==> forall s :: 0 <= s < q.stopCount && done[k].row[s] == U32_MAX ==>
              done[k].best[s] == done[k - 1].best[s]
    ensures k > 0 ==> forall s :: 0 <= s < q.stopCount && done[k].row[s] < U32_MAX ==>
              done[k].row[s] < done[k - 1].best[s] && done[k].row[s] < TargetBound(q.targets, done[k - 1].best)
  {
    hide Explained, OriginsKept, AllServed, Pending, WalksTight, TargetBound;
    assert RoundDone(q, done, k);
  }

  lemma {:induction false} BestFalls(q: Query, done: seq<Front>, j: nat, k: nat)
    requires History(q, done) && j <= k < |done|
    ensures NoLater(done[k].best, done[j].best)
    ensures TargetBound(q.targets, done[k].best) <= TargetBound(q.targets, done[j].best)
    decreases k
  {
    hide RoundDone, TargetBound;
    if j < k {
      BestFalls(q, done, j, k - 1);
      RoundImproves(q, done, k);
      TargetBoundMonotone(q.targets, done[k - 1].best, done[k].best);
    }
  }

  /** A best time is the label of some round so far. */
  lemma {:induction false} LatestLabel(q: Query, done: seq<Front>, k: nat, s: nat) returns (j: nat)
    requires History(q, done) && k < |done| && s < q.stopCount
    requires done[k].best[s] < U32_MAX
    ensures j <= k && done[j].row[s] == done[k].best[s]
    decreases k
  {
    RoundImproves(q, done, k);
    if done[k].row[s] < U32_MAX || k == 0 {
      j := k;
    } else {
      j := LatestLabel(q, done, k - 1, s);
    }
  }

  // ---------------------------------------------------------------- optimality

  /** The round that has to account for the itinerary. */
  ghost function RoundFor(done: seq<Front>, it: Itinerary): nat
    requires |done| > 0
  {
    Min(Rides(it), |done| - 1)
  }

  /** The stop the itinerary ends at, or some target, was reached no later than the itinerary. */
  ghost predicate Matched(q: Query, f: Front, it: Itinerary)
    requires TargetsKnown(q) && |f.best| == q.stopCount
  {
    && End(q, it) < q.stopCount
    && (f.best[End(q, it)] <= Time(q, it) || TargetBound(q.targets, f.best) <= Time(q, it))
  }

  lemma MatchedLater(q: Query, done: seq<Front>, j: nat, k: nat, it: Itinerary)
    requires History(q, done) && j <= k < |done| && Matched(q, done[j], it)
    ensures Matched(q, done[k], it)
  {
    BestFalls(q, done, j, k);
  }

  /** A label's own margin is never larger than the cautious one. */
  lemma CautionCovers(q: Query, done: seq<Front>, j: nat, before: Itinerary)
    requires History(q, done) && j < |done| && Robust(q, before) && j <= Rides(before)
    requires End(q, before) < q.stopCount && done[j].row[End(q, before)] < U32_MAX
    ensures TransferSlack(q, j + 1, End(q, before), done[j].parents).0 <= CautiousSlack(q, before)
  {
    assert RoundDone(q, done, j);
    assert Explained(q, PastOf(q, done, j), done[j], End(q, before));
  }

  lemma LinkWasSettled(q: Query, done: seq<Front>, j: nat, p: nat, l: Link)
    requires History(q, done) && j < |done| && p < q.stopCount && l in Links(q, p) && done[j].row[p] < U32_MAX
    ensures LinkSettled(done[j].best, done[j].row[p], l, TargetBound(q.targets, done[j].best))
  {
    assert RoundDone(q, done, j);
    assert Settled(q, done[j], p, TargetBound(q.targets, done[j].best));
  }

  /** A ride on an orderly route that could be boarded from the round before has been tried. */
  lemma RideWasServed(q: Query, done: seq<Front>, n: nat, move: Move)
    requires History(q, done) && n + 1 < |done|
    requires RidePossible(q, move) && Orderly(q, move.route)
    requires CanBoard(q, n + 1, PastOf(q, done, n + 1), move.route, move.trip, move.board)
    ensures Reached(done[n + 1].best, TargetBound(q.targets, done[n + 1].best), StopAt(q, move.route, move.alight),
                    Arrival(q, move.route, move.trip, move.alight))
  {
    assert RoundDone(q, done, n + 1);
    var past := PastOf(q, done, n + 1);
    assert Served(q, n + 1, past, move.route, done[n + 1].best, TargetBound(q.targets, done[n + 1].best), 0,
                  |q.tt.routes[move.route].stopIndices|);
  }

  lemma WalkMatched(q: Query, done: seq<Front>, k: nat, it: Itinerary)
    requires LinksStay(q) && History(q, done) && k < |done| && Robust(q, it) && it.Extend? && it.move.Walk?
    requires Matched(q, done[k], it.before)
    ensures Matched(q, done[k], it)
  {
    var Extend(b, Walk(l)) := it;
    var p := End(q, b);
    if done[k].best[p] <= Time(q, b) {
      var j := LatestLabel(q, done, k, p);
      LinkWasSettled(q, done, j, p, l);
      assert Matched(q, done[j], it);
      MatchedLater(q, done, j, k, it);
    }
  }

  lemma BoardsFromLabel(q: Query, done: seq<Front>, n: nat, it: Itinerary)
    requires History(q, done) && n + 1 < |done| && Robust(q, it) && it.Extend? && it.move.Ride?
    requires End(q, it.before) < q.stopCount && done[n].row[End(q, it.before)] <= Time(q, it.before)
    requires n <= Rides(it.before)
    ensures CanBoard(q, n + 1, PastOf(q, done, n + 1), it.move.route, it.move.trip, it.move.board)
  {
    CautionCovers(q, done, n, it.before);
  }

  /** The ride is accounted for in the round after the label it boards from. */
  lemma RideMatched(q: Query, done: seq<Front>, it: Itinerary)
    requires ValidQuery(q) && History(q, done) && Complete(q, done)
    requires Robust(q, it) && it.Extend? && it.move.Ride? && Orderly(q, it.move.route)
    requires Rides(it) <= q.maxTransfers + 1
    requires Matched(q, done[RoundFor(done, it.before)], it.before)
    ensures Matched(q, done[RoundFor(done, it)], it)
  {
    hide ValidQuery, Orderly, Robust, Complete, RoundDone, TargetBound;
    var k, p := RoundFor(done, it.before), End(q, it.before);
    RideTakesTime(q, it);
    if done[k].best[p] <= Time(q, it.before) {
      var n := RideMatchedByLabel(q, done, k, it);
      hide Matched;
      MatchedLater(q, done, n + 1, RoundFor(done, it), it);
    } else {
      RideMatchedByTarget(q, done, k, it);
    }
  }

  lemma RideMatchedByTarget(q: Query, done: seq<Front>, k: nat, it: Itinerary)
    requires ValidQuery(q) && History(q, done) && Robust(q, it) && it.Extend? && it.move.Ride?
    requires |done| > 0 && k == RoundFor(done, it.before)
    requires TargetBound(q.targets, done[k].best) <= Time(q, it.before)
    ensures Matched(q, done[RoundFor(done, it)], it)
  {
    AlightsInRange(q, it.move);
    RideTakesTime(q, it);
    hide ValidQuery, RoundDone, Robust, TargetBound;
    BestFalls(q, done, k, RoundFor(done, it));
  }

  lemma RideTakesTime(q: Query, it: Itinerary)
    requires Robust(q, it) && it.Extend? && it.move.Ride?
    ensures Robust(q, it.before) && Time(q, it.before) <= Time(q, it) && Time(q, it.before) < U32_MAX
  {
  }

  lemma RideMatchedByLabel(q: Query, done: seq<Front>, k: nat, it: Itinerary) returns (n: nat)
    requires ValidQuery(q) && History(q, done) && Complete(q, done)
    requires Robust(q, it) && it.Extend? && it.move.Ride? && Orderly(q, it.move.route)
    requires Rides(it) <= q.maxTransfers + 1 && |done| > 0 && k == RoundFor(done, it.before)
    requires End(q, it.before) < q.stopCount && done[k].best[End(q, it.before)] <= Time(q, it.before)
    ensures n + 1 <= RoundFor(done, it) < |done| && Matched(q, done[n + 1], it)
  {
    RideTakesTime(q, it);
    n := LabelToBoardFrom(q, done, k, it);
    RideFromLabel(q, done, n, it);
  }

  /** The label the ride can be boarded from, with a round after it for the ride. */
  lemma LabelToBoardFrom(q: Query, done: seq<Front>, k: nat, it: Itinerary) returns (n: nat)
    requires History(q, done) && Complete(q, done) && it.Extend? && it.move.Ride?
    requires Rides(it) <= q.maxTransfers + 1 && |done| > 0 && k == RoundFor(done, it.before)
    requires End(q, it.before) < q.stopCount && done[k].best[End(q, it.before)] <= Time(q, it.before) < U32_MAX
    ensures n + 1 <= RoundFor(done, it) < |done| && n <= Rides(it.before)
    ensures done[n].row[End(q, it.before)] <= Time(q, it.before)
  {
    n := LatestLabel(q, done, k, End(q, it.before));
    hide RoundDone;
    AnotherRound(q, done, n, End(q, it.before));
    RoundForRide(done, it, n);
  }

  lemma RoundForRide(done: seq<Front>, it: Itinerary, n: nat)
    requires it.Extend? && it.move.Ride? && n + 1 < |done| && n <= RoundFor(done, it.before)
    ensures n + 1 <= RoundFor(done, it) < |done| && n <= Rides(it.before)
  {
  }

  /** A label in a round that is not the last allowed is followed by another round. */
  lemma AnotherRound(q: Query, done: seq<Front>, n: nat, s: nat)
    requires Complete(q, done) && History(q, done) && n < |done| && n <= q.maxTransfers
    requires s < q.stopCount && done[n].row[s] < U32_MAX
    ensures n + 1 < |done|
  {
    hide RoundDone;
  }

  lemma RideFromLabel(q: Query, done: seq<Front>, n: nat, it: Itinerary)
    requires ValidQuery(q) && History(q, done) && n + 1 < |done|
    requires Robust(q, it) && it.Extend? && it.move.Ride? && Orderly(q, it.move.route)
    requires n <= Rides(it.before) && End(q, it.before) < q.stopCount && done[n].row[End(q, it.before)] <= Time(q, it.before)
    ensures Matched(q, done[n + 1], it)
  {
    AlightsInRange(q, it.move);
    hide ValidQuery, Orderly, TargetBound, RoundDone;
    BoardsFromLabel(q, done, n, it);
    RideWasServed(q, done, n, it.move);
  }

  lemma AlightsInRange(q: Query, move: Move)
    requires ValidQuery(q) && RidePossible(q, move)
    ensures StopAt(q, move.route, move.alight) < q.stopCount
  {
    assert ValidRoute(q.tt, move.route);
  }

  lemma OriginLabelled(q: Query, done: seq<Front>, o: nat)
    requires History(q, done) && |done| > 0 && o in q.origins && o < q.stopCount
    ensures done[0].row[o] == q.departure == done[0].best[o]
  {
    assert RoundDone(q, done, 0);
  }

  lemma {:induction false} EveryItineraryMatched(q: Query, done: seq<Front>, it: Itinerary)
    requires ValidQuery(q) && History(q, done) && Complete(q, done)
    requires Robust(q, it) && RidesOrderlyRoutes(q, it) && Rides(it) <= q.maxTransfers + 1
    ensures Matched(q, done[RoundFor(done, it)], it)
    decreases it
  {
    match it
    case Start(o) =>
      OriginLabelled(q, done, o);
    case Extend(b, Walk(_)) =>
      EveryItineraryMatched(q, done, b);
      ValidQueryLinksStay(q);
      WalkMatched(q, done, RoundFor(done, it), it);
    case Extend(b, Ride(_, _, _, _)) =>
      EveryItineraryMatched(q, done, b);
      RideMatched(q, done, it);
  }

  /** For every robust itinerary to a target, some round with no more rides labels a target no later. */
  lemma LabelsOptimal(q: Query, done: seq<Front>, it: Itinerary) returns (j: nat)
    requires ValidQuery(q) && History(q, done) && Complete(q, done)
    requires Robust(q, it) && RidesOrderlyRoutes(q, it) && Rides(it) <= q.maxTransfers + 1
    requires End(q, it) in q.targets
    ensures j <= Rides(it) && j < |done|
    ensures TargetBound(q.targets, done[j].row) <= Time(q, it)
  {
    EveryItineraryMatched(q, done, it);
    var k := RoundFor(done, it);
    var bound := TargetBound(q.targets, done[k].best);
    assert bound <= Time(q, it) < U32_MAX;
    var s :| s in q.targets && done[k].best[s] == bound;
    j := LatestLabel(q, done, k, s);
  }

  // ---------------------------------------------------------------- the Pareto property

  /** Every label of a later round is below every target time of the rounds before. */
  lemma LaterRoundsBetter(q: Query, done: seq<Front>, j: nat, k: nat, s: nat)
    requires History(q, done) && j < k < |done| && s < q.stopCount && done[k].row[s] < U32_MAX
    ensures done[k].row[s] < TargetBound(q.targets, done[j].row) || TargetBound(q.targets, done[j].row) == U32_MAX
  {
    hide RoundDone, TargetBound;
    RoundImproves(q, done, k);
    RoundImproves(q, done, j);
    BestFalls(q, done, j, k - 1);
    assert TargetsKnown(q) && |done[j].row| == |done[j].best| == q.stopCount;
    hide History;
    var bound := TargetBound(q.targets, done[j].row);
    if bound < U32_MAX {
      var t :| t in q.targets && done[j].row[t] == bound;
      assert done[j].best[t] == bound;
    }
  }
}
