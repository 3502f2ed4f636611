/** From labels to journeys, and the guarantees of the whole search. */
module RaptorJourneys {
  import opened Machine
  import opened Sorting
  import opened Network
  import opened Itineraries
  import opened Alignment
  import opened LegLaws
  import opened LegExactness
  import opened RaptorInvariant
  import opened RaptorHistory
  import opened RaptorTheorems
  import opened RaptorTrace
  import opened RaptorSearch

  datatype Journey = Journey(legs: seq<Leg>, departure: U32, arrival: U32, duration: U32, transferCount: nat)

  /** The departure time shown for a journey: that of its first leg, as the overlay adjusts it. */
  function JourneyDeparture(q: Query, legs: seq<Leg>): U32 {
    if |legs| == 0 then q.departure
    else match legs[0]
      case WalkLeg(_, _, departure, _) => departure
      case RideLeg(from, _, tripId, _, _, departure, _, _, _) =>
        q.realtime.AdjustedTime(tripId, StopName(q, from), departure)
  }

  /** The journey that presents an itinerary. */
  function Present(q: Query, it: Itinerary): Journey
    requires Feasible(q, it) && Rides(it) > 0
  {
    TimeNonNegative(q, it);
    var legs := Aligned(LegsOf(q, it));
    var departure := JourneyDeparture(q, legs);
    Journey(legs, departure, Time(q, it), SatSub(Time(q, it), departure), Rides(it) - 1)
  }

  /** `j` presents a feasible itinerary to a target, with one ride more than it has changes. */
  ghost predicate Presents(q: Query, it: Itinerary, j: Journey) {
    && Feasible(q, it) && End(q, it) in q.targets && Rides(it) == j.transferCount + 1
    && j == Present(q, it)
  }

  ghost predicate IsJourney(q: Query, j: Journey) {
    exists it :: Presents(q, it, j)
  }

  ghost predicate HasRound(found: seq<Journey>, n: nat) {
    exists j :: j in found && j.transferCount + 1 == n
  }

  /** `j` is the journey of a round below `k`. */
  ghost predicate FromRound(q: Query, done: seq<Front>, k: nat, j: Journey)
    requires History(q, done) && k <= |done|
  {
    && j.transferCount + 1 < k
    && j.arrival == TargetBound(q.targets, done[j.transferCount + 1].row) < U32_MAX
    && IsJourney(q, j)
  }

  /** More changes, earlier arrival. */
  ghost predicate TradedOff(found: seq<Journey>) {
    forall a, b :: 0 <= a < b < |found| ==>
      found[a].transferCount < found[b].transferCount && found[a].arrival > found[b].arrival
  }

  ghost predicate Covered(q: Query, done: seq<Front>, k: nat, found: seq<Journey>)
    requires History(q, done) && k <= |done|
  {
    forall n :: 1 <= n < k && TargetBound(q.targets, done[n].row) < U32_MAX ==> HasRound(found, n)
  }

  /** The journeys of rounds 1 to `k - 1`, in the order of the rounds. */
  ghost predicate Collected(q: Query, done: seq<Front>, k: nat, found: seq<Journey>)
    requires History(q, done) && k <= |done|
  {
    && (forall j :: j in found ==> FromRound(q, done, k, j))
    && TradedOff(found)
    && Covered(q, done, k, found)
  }

  predicate JourneyOrder(x: Journey, y: Journey) {
    x.arrival < y.arrival || (x.arrival == y.arrival && x.transferCount <= y.transferCount)
  }

  /** `rest` is the feasible itinerary behind the label of `stop` in round `k`. */
  ghost predicate Behind(q: Query, done: seq<Front>, k: nat, stop: nat, rest: Itinerary) {
    && History(q, done) && k < |done| && stop < q.stopCount
    && done[k].row[stop] < U32_MAX && Traces(q, done, k, stop, rest) && Feasible(q, rest)
  }

  /** `reconstruct_raptor_journey`: follow parents from the target, then turn the legs around. */
  method Reconstruct(search: Search, round: nat, target: nat, ghost done: seq<Front>, ghost it: Itinerary)
      returns (legs: Option<seq<Leg>>)
    requires search.Between(done) && Behind(search.q, done, round, target, it)
    ensures legs == if LegsOf(search.q, it) == [] then None else Some(LegsOf(search.q, it))
  {
    var stop: nat, k: nat := target, round;
    var reversed: seq<Leg> := [];
    ghost var rest := it;
    ParentsHeld(search, done);
    hide Unwound, Search.Between;
    while k < search.parents.Length && stop in search.parents[k]
      invariant k < |done| && Unwound(search.q, done, it, k, stop, rest, reversed)
      decreases rest
    {
      Unwind(search.q, done, it, k, stop, rest, reversed);
      var parent := search.parents[k][stop];
      reversed := reversed + [ParentLeg(parent, stop)];
      k := if parent.RideFrom? then parent.previousRound else k;
      stop := parent.previousStop;
      rest := rest.before;
    }
    FullyUnwound(search.q, done, it, k, stop, rest, reversed);
    legs := if |reversed| == 0 then None else Some(Reversed(reversed));
  }

  /** The legs taken so far, turned around, complete the legs of the rest. */
  ghost predicate Unwound(q: Query, done: seq<Front>, it: Itinerary, k: nat, stop: nat, rest: Itinerary,
                          reversed: seq<Leg>) {
    && Feasible(q, it) && Behind(q, done, k, stop, rest)
    && LegsOf(q, it) == LegsOf(q, rest) + Reversed(reversed)
  }

  lemma Unwind(q: Query, done: seq<Front>, it: Itinerary, k: nat, stop: nat, rest: Itinerary, reversed: seq<Leg>)
    requires Unwound(q, done, it, k, stop, rest, reversed) && k < |done| && stop in done[k].parents
    ensures rest.Extend?
    ensures var parent := done[k].parents[stop];
            var n := if parent.RideFrom? then parent.previousRound else k;
            n < |done| && Unwound(q, done, it, n, parent.previousStop, rest.before, reversed + [ParentLeg(parent, stop)])
  {
    hide Behind, LegsOf, Feasible;
    BehindParent(q, done, k, stop, rest);
    ReversedAppend(reversed, ParentLeg(done[k].parents[stop], stop));
  }

  lemma FullyUnwound(q: Query, done: seq<Front>, it: Itinerary, k: nat, stop: nat, rest: Itinerary,
                     reversed: seq<Leg>)
    requires Unwound(q, done, it, k, stop, rest, reversed) && k < |done| && stop !in done[k].parents
    ensures Feasible(q, it) && LegsOf(q, it) == Reversed(reversed)
  {
    TraceIsFeasible(q, done, k, stop, rest);
  }

  lemma ParentsHeld(search: Search, done: seq<Front>)
    requires search.Between(done)
    ensures forall k :: 0 <= k < |done| ==> k < search.parents.Length && search.parents[k] == done[k].parents
  {
    forall k | 0 <= k < |done|
      ensures k < search.parents.Length && search.parents[k] == done[k].parents
    {
      assert search.parents[..][k] == done[k].parents;
    }
  }

  function Reversed<T>(xs: seq<T>): (r: seq<T>)
    ensures |r| == |xs|
  {
    if |xs| == 0 then [] else [xs[|xs| - 1]] + Reversed(xs[..|xs| - 1])
  }

  lemma ReversedAppend<T>(xs: seq<T>, x: T)
    ensures Reversed(xs + [x]) == [x] + Reversed(xs)
  {
    assert (xs + [x])[..|xs|] == xs;
  }

  lemma {:induction false} ReversedAt<T>(xs: seq<T>)
    ensures forall i :: 0 <= i < |xs| ==> Reversed(xs)[i] == xs[|xs| - 1 - i]
    ensures multiset(Reversed(xs)) == multiset(xs)
  {
    if |xs| > 0 {
      ReversedAt(xs[..|xs| - 1]);
      assert xs == xs[..|xs| - 1] + [xs[|xs| - 1]];
    }
  }

  /** Where a parent leads there is a label, with the rest of the itinerary behind it. */
  lemma BehindParent(q: Query, done: seq<Front>, k: nat, stop: nat, rest: Itinerary)
    requires Behind(q, done, k, stop, rest) && stop in done[k].parents
    ensures rest.Extend? && Feasible(q, rest) && Feasible(q, rest.before)
    ensures var parent := done[k].parents[stop];
            var n := if parent.RideFrom? then parent.previousRound else k;
            && n < |done| && Behind(q, done, n, parent.previousStop, rest.before)
            && LegsOf(q, rest) == LegsOf(q, rest.before) + [ParentLeg(parent, stop)]
  {
    TraceIsFeasible(q, done, k, stop, rest);
    hide Traces, History, Feasible, LegsOf;
    if rest.move.Ride? {
      BehindRide(q, done, k, stop, rest);
    } else {
      BehindWalk(q, done, k, stop, rest);
    }
    LastLeg(q, done, k, stop, rest);
  }

  lemma BehindRide(q: Query, done: seq<Front>, k: nat, stop: nat, rest: Itinerary)
    requires History(q, done) && k < |done| && stop < q.stopCount && done[k].row[stop] < U32_MAX
    requires Traces(q, done, k, stop, rest) && rest.Extend? && rest.move.Ride? && Feasible(q, rest)
    ensures k > 0 && stop in done[k].parents && done[k].parents[stop].RideFrom?
    ensures done[k].parents[stop].previousRound == k - 1
    ensures Behind(q, done, k - 1, done[k].parents[stop].previousStop, rest.before)
  {
    RideTraced(q, done, k, stop, rest);
    hide History, Traces;
    RecordedRound(q, k, PastOf(q, done, k), done[k].parents[stop], stop, done[k].row[stop], rest.move);
  }

  lemma BehindWalk(q: Query, done: seq<Front>, k: nat, stop: nat, rest: Itinerary)
    requires History(q, done) && k < |done| && stop < q.stopCount && done[k].row[stop] < U32_MAX
    requires Traces(q, done, k, stop, rest) && rest.Extend? && rest.move.Walk? && Feasible(q, rest)
    ensures stop in done[k].parents && done[k].parents[stop].WalkFrom?
    ensures Behind(q, done, k, done[k].parents[stop].previousStop, rest.before)
  {
    LabelExplained(q, done, k, stop);
    hide History;
  }

  lemma RecordedRound(q: Query, round: nat, past: Past, parent: Parent, stop: nat, arrival: U32, move: Move)
    requires RecordsRide(q, round, past, parent, stop, arrival, move)
    ensures parent.previousRound == round - 1
  {
  }

  // ---------------------------------------------------------------- one journey for each round that reaches a target

  /** No target has a smaller label, and none before it has one as small. */
  ghost predicate FirstLeast(targets: seq<nat>, row: seq<U32>, n: int) {
    && 0 <= n < |targets| && (forall m :: 0 <= m < |targets| ==> targets[m] < |row|)
    && (forall m :: 0 <= m < |targets| ==> row[targets[n]] <= row[targets[m]])
    && (forall m :: 0 <= m < n ==> row[targets[n]] < row[targets[m]])
  }

  /** The first target with the smallest label of a round. */
  method FindTarget(targets: seq<nat>, row: seq<U32>) returns (target: Option<nat>)
    requires forall s :: s in targets ==> s < |row|
    ensures target.None? <==> TargetBound(targets, row) == U32_MAX
    ensures target.Some? ==> target.value in targets && row[target.value] == TargetBound(targets, row)
    ensures target.Some? ==> exists n :: FirstLeast(targets, row, n) && target.value == targets[n]
  {
    target := None;
    ghost var first := 0;
    assert forall n :: 0 <= n < |targets| ==> targets[n] in targets;
    for n := 0 to |targets|
      invariant target.None? ==> forall m :: 0 <= m < n ==> row[targets[m]] == U32_MAX
      invariant target.Some? ==> 0 <= first < n && target.value == targets[first] && row[target.value] < U32_MAX
      invariant target.Some? ==> forall m :: 0 <= m < n ==> row[target.value] <= row[targets[m]]
      invariant target.Some? ==> forall m :: 0 <= m < first ==> row[target.value] < row[targets[m]]
    {
      if row[targets[n]] != U32_MAX && (target.None? || row[targets[n]] < row[target.value]) {
        target := Some(targets[n]);
        first := n;
      }
    }
  }

  lemma CollectStep(q: Query, done: seq<Front>, k: nat, found: seq<Journey>, j: Journey)
    requires History(q, done) && 0 < k < |done| && Collected(q, done, k, found)
    requires j.transferCount + 1 == k && j.arrival == TargetBound(q.targets, done[k].row) < U32_MAX
    requires IsJourney(q, j)
    ensures Collected(q, done, k + 1, found + [j])
  {
    hide Covered, FromRound, TradedOff, History, IsJourney, TargetBound, RoundDone;
    StillTradedOff(q, done, k, found, j);
    CoveredLast(q, done, k, found, j);
    NewFromRound(q, done, k, j);
    forall x | x in found
      ensures FromRound(q, done, k + 1, x)
    {
      StillFromRound(q, done, k, x);
    }
  }

  lemma NewFromRound(q: Query, done: seq<Front>, k: nat, j: Journey)
    requires History(q, done) && 0 < k < |done| && IsJourney(q, j)
    requires j.transferCount + 1 == k && j.arrival == TargetBound(q.targets, done[k].row) < U32_MAX
    ensures FromRound(q, done, k + 1, j)
  {
    hide IsJourney, TargetBound, RoundDone, History;
  }

  lemma StillFromRound(q: Query, done: seq<Front>, k: nat, x: Journey)
    requires History(q, done) && k < |done| && FromRound(q, done, k, x)
    ensures FromRound(q, done, k + 1, x)
  {
    hide IsJourney, TargetBound, RoundDone, History;
  }

  lemma CoveredLast(q: Query, done: seq<Front>, k: nat, found: seq<Journey>, j: Journey)
    requires History(q, done) && 0 < k < |done| && Covered(q, done, k, found) && j.transferCount + 1 == k
    ensures Covered(q, done, k + 1, found + [j])
  {
    hide TargetBound, RoundDone;
    forall n | 1 <= n < k + 1 && TargetBound(q.targets, done[n].row) < U32_MAX
      ensures HasRound(found + [j], n)
    {
      if n < k {
        assert HasRound(found, n);
        var x :| x in found && x.transferCount + 1 == n;
        assert x in found + [j];
      } else {
        assert j in found + [j];
      }
    }
  }

  lemma StillTradedOff(q: Query, done: seq<Front>, k: nat, found: seq<Journey>, j: Journey)
    requires History(q, done) && 0 < k < |done| && Collected(q, done, k, found)
    requires j.transferCount + 1 == k && j.arrival == TargetBound(q.targets, done[k].row) < U32_MAX
    ensures TradedOff(found + [j])
  {
    assert TradedOff(found) && forall x :: x in found ==> FromRound(q, done, k, x);
    hide History, Collected, FromRound, TargetBound, TradedOff;
    forall x | x in found
      ensures x.transferCount < j.transferCount && x.arrival > j.arrival
    {
      EarlierRoundsWorse(q, done, k, x, j.arrival);
    }
    TradedOffLast(found, j);
  }

  lemma TradedOffLast(found: seq<Journey>, j: Journey)
    requires TradedOff(found)
    requires forall x :: x in found ==> x.transferCount < j.transferCount && x.arrival > j.arrival
    ensures TradedOff(found + [j])
  {
    assert forall a :: 0 <= a < |found| ==> found[a] in found;
  }

  lemma EarlierRoundsWorse(q: Query, done: seq<Front>, k: nat, x: Journey, arrival: U32)
    requires History(q, done) && 0 < k < |done| && FromRound(q, done, k, x)
    requires arrival == TargetBound(q.targets, done[k].row) < U32_MAX
    ensures x.transferCount + 1 < k && x.arrival > arrival
  {
    hide IsJourney, RoundDone, TargetBound;
    var s :| s in q.targets && done[k].row[s] == arrival;
    LaterRoundsBetter(q, done, x.transferCount + 1, k, s);
  }

  lemma SkipRound(q: Query, done: seq<Front>, k: nat, found: seq<Journey>)
    requires History(q, done) && 0 < k < |done| && Collected(q, done, k, found)
    requires TargetBound(q.targets, done[k].row) == U32_MAX
    ensures Collected(q, done, k + 1, found)
  {
    CoveredSkip(q, done, k, found);
    hide Covered, FromRound, History, TargetBound;
    forall x | x in found
      ensures FromRound(q, done, k + 1, x)
    {
      StillFromRound(q, done, k, x);
    }
  }

  lemma CoveredSkip(q: Query, done: seq<Front>, k: nat, found: seq<Journey>)
    requires History(q, done) && 0 < k < |done| && Covered(q, done, k, found)
    requires TargetBound(q.targets, done[k].row) == U32_MAX
    ensures Covered(q, done, k + 1, found)
  {
    hide RoundDone, TargetBound;
  }

  /** The journey of one round. */
  method JourneyOfRound(search: Search, k: nat, target: nat, ghost done: seq<Front>) returns (journey: Option<Journey>)
    requires search.Between(done) && 0 < k < |done|
    requires target in search.q.targets && target < search.q.stopCount && done[k].row[target] < U32_MAX
    ensures journey.Some?
    ensures journey.value.transferCount + 1 == k && journey.value.arrival == done[k].row[target]
    ensures IsJourney(search.q, journey.value)
  {
    var q := search.q;
    ghost var it := TraceBack(q, done, k, target);
    TraceIsFeasible(q, done, k, target, it);
    var legs := Reconstruct(search, k, target, done, it);
    assert LegsOf(q, it) != [] by {
      RidesHaveLegs(q, it);
    }
    if legs.None? {
      return None;
    }
    var buffer := new Leg[|legs.value|](n requires 0 <= n < |legs.value| => legs.value[n]);
    assert buffer[..] == legs.value;
    AlignLeadingWalk(buffer);
    var departure := JourneyDeparture(q, buffer[..]);
    var arrival := search.rounds[k][target];
    assert search.rounds[..][k] == done[k].row;
    journey := Some(Journey(buffer[..], departure, arrival, SatSub(arrival, departure), k - 1));
    assert Presents(q, it, journey.value);
  }

  lemma RidesHaveLegs(q: Query, it: Itinerary)
    requires Feasible(q, it) && Rides(it) > 0
    ensures |LegsOf(q, it)| > 0
  {
  }

  method CollectJourneys(search: Search, ghost done: seq<Front>) returns (found: seq<Journey>)
    requires search.Between(done)
    ensures Collected(search.q, done, |done|, found)
  {
    var q := search.q;
    found := [];
    CollectedNone(q, done);
    hide Collected, FirstLeast, RoundDone;
    for k := 1 to q.maxTransfers + 2
      invariant Collected(q, done, Min(k, |done|), found)
    {
      found := CollectRound(search, k, found, done);
    }
  }

  /** The journey of round `k`, if the round labels a target. */
  method CollectRound(search: Search, k: nat, before: seq<Journey>, ghost done: seq<Front>) returns (found: seq<Journey>)
    requires search.Between(done) && 1 <= k < search.q.maxTransfers + 2
    requires Collected(search.q, done, Min(k, |done|), before)
    ensures Collected(search.q, done, Min(k + 1, |done|), found)
  {
    var q := search.q;
    hide Collected, FirstLeast, RoundDone;
    found := before;
    assert search.rounds[..][k] == search.rounds[k];
    var target := FindTarget(q.targets, search.rounds[k]);
    if target.Some? {
      var journey := JourneyOfRound(search, k, target.value, done);
      if journey.Some? {
        CollectStep(q, done, k, found, journey.value);
        found := found + [journey.value];
      }
    } else if k < |done| {
      SkipRound(q, done, k, found);
    }
  }

  lemma CollectedNone(q: Query, done: seq<Front>)
    requires History(q, done) && |done| > 0
    ensures Collected(q, done, 1, [])
  {
  }

  // ---------------------------------------------------------------- the whole search

  /** Fewer changes cost time, and the journeys come in order of arrival. */
  ghost predicate ParetoSorted(journeys: seq<Journey>) {
    forall a, b :: 0 <= a < b < |journeys| ==>
      journeys[a].arrival < journeys[b].arrival && journeys[a].transferCount > journeys[b].transferCount
  }

  /** No target can be reached without a vehicle by `time`. */
  ghost predicate OnFoot(q: Query, it: Itinerary, time: int) {
    Feasible(q, it) && Rides(it) == 0 && End(q, it) in q.targets && Time(q, it) <= time
  }

  ghost predicate ReachedOnFoot(q: Query, time: int) {
    exists it :: OnFoot(q, it, time)
  }

  ghost predicate NoWorse(j: Journey, q: Query, it: Itinerary) {
    j.arrival <= Time(q, it) && j.transferCount + 1 <= Rides(it)
  }

  /** Some journey is at least as good as the itinerary, or walking is. */
  ghost predicate Answered(q: Query, journeys: seq<Journey>, it: Itinerary) {
    (exists j :: j in journeys && NoWorse(j, q, it)) || ReachedOnFoot(q, Time(q, it))
  }

  lemma JourneyOrderTotal()
    ensures TotalPreorder(JourneyOrder)
  {
  }

  lemma TradedOffSeparates(found: seq<Journey>)
    requires TradedOff(found)
    ensures Separates(found, JourneyOrder)
  {
    forall x, y | x in found && y in found && JourneyOrder(x, y) && JourneyOrder(y, x)
      ensures x == y
    {
      var a :| 0 <= a < |found| && found[a] == x;
      var b :| 0 <= b < |found| && found[b] == y;
      assert a == b;
    }
  }

  lemma TurnedAround(found: seq<Journey>)
    requires TradedOff(found)
    ensures ParetoSorted(Reversed(found)) && SortedBy(Reversed(found), JourneyOrder)
  {
    var sorted := Reversed(found);
    ReversedAt(found);
    forall a, b | 0 <= a < b < |sorted|
      ensures sorted[a].arrival < sorted[b].arrival && sorted[a].transferCount > sorted[b].transferCount
    {
      assert sorted[a] == found[|found| - 1 - a] && sorted[b] == found[|found| - 1 - b];
    }
  }

  /** Collected in the order of the rounds, the journeys are sorted by turning them around. */
  lemma SortedByRounds(found: seq<Journey>)
    requires TradedOff(found)
    ensures ParetoSorted(Sort(found, JourneyOrder))
    ensures forall j :: j in Sort(found, JourneyOrder) <==> j in found
  {
    TradedOffSeparates(found);
    TurnedAround(found);
    JourneyOrderTotal();
    hide TradedOff, ParetoSorted, Separates, SortedBy, TotalPreorder, JourneyOrder, Sort, Reversed;
    ReversedAt(found);
    SortFixed(Reversed(found), JourneyOrder);
    SortOfPermutation(found, Reversed(found), JourneyOrder);
    SameMembers(found, Reversed(found));
  }

  lemma WalkedThere(q: Query, done: seq<Front>, time: int)
    requires History(q, done) && |done| > 0 && TargetBound(q.targets, done[0].row) <= time < U32_MAX
    ensures ReachedOnFoot(q, time)
  {
    var s :| s in q.targets && done[0].row[s] == TargetBound(q.targets, done[0].row);
    var walk := TraceBack(q, done, 0, s);
    TraceIsFeasible(q, done, 0, s, walk);
    assert OnFoot(q, walk, time);
  }

  lemma RodeThere(q: Query, done: seq<Front>, found: seq<Journey>, n: nat, time: int) returns (j: Journey)
    requires History(q, done) && Collected(q, done, |done|, found)
    requires 0 < n < |done| && TargetBound(q.targets, done[n].row) <= time < U32_MAX
    ensures j in found && j.transferCount + 1 == n && j.arrival <= time
  {
    assert HasRound(found, n);
    j :| j in found && j.transferCount + 1 == n;
    assert FromRound(q, done, |done|, j);
  }

  /** Each itinerary the search has to answer is answered by a collected journey or on foot. */
  lemma CollectedAnswers(q: Query, done: seq<Front>, found: seq<Journey>, it: Itinerary)
    requires ValidQuery(q) && History(q, done) && Complete(q, done) && Collected(q, done, |done|, found)
    requires Robust(q, it) && RidesOrderlyRoutes(q, it) && Rides(it) <= q.maxTransfers + 1
    requires End(q, it) in q.targets
    ensures Answered(q, found, it)
  {
    hide ValidQuery, Complete, Robust, RidesOrderlyRoutes, Collected, RoundDone, TargetBound, History, Time;
    RobustInTime(q, it);
    var n := LabelsOptimal(q, done, it);
    if n == 0 {
      WalkedThere(q, done, Time(q, it));
    } else {
      var j := RodeThere(q, done, found, n, Time(q, it));
      assert NoWorse(j, q, it);
    }
  }

  lemma RobustInTime(q: Query, it: Itinerary)
    requires Robust(q, it)
    ensures Time(q, it) < U32_MAX
  {
  }

  lemma CollectedJourneysSound(q: Query, done: seq<Front>, found: seq<Journey>, j: Journey)
    requires History(q, done) && Collected(q, done, |done|, found) && |done| <= q.maxTransfers + 2 && j in found
    ensures IsJourney(q, j) && j.transferCount <= q.maxTransfers
  {
    assert FromRound(q, done, |done|, j);
  }

  /** The itinerary leads to a target with no more rides than the request allows. */
  ghost predicate WithinLimits(q: Query, it: Itinerary) {
    End(q, it) in q.targets && Rides(it) <= q.maxTransfers + 1
  }

  // ---------------------------------------------------------------- the same in terms of legs

  /** What a journey promises: legs that can be travelled from an origin to a target, one ride more than changes, and the
      times of its ends. */
  ghost predicate Kept(q: Query, j: Journey) {
    && Travels(q, j.legs, false) && ShownInJourney(q, j.legs)
    && j.legs[|j.legs| - 1].to in q.targets
    && RideCount(j.legs) == j.transferCount + 1
    && j.departure == LeavesAt(q, j.legs[0]) && j.arrival == ReadyAt(q, j.legs)
    && j.duration == if j.arrival < j.departure then 0 else j.arrival - j.departure
  }

  lemma JourneyKept(q: Query, j: Journey)
    requires ValidQuery(q) && IsJourney(q, j)
    ensures Kept(q, j)
  {
    hide ValidQuery, Feasible, LegsOf, Travels, ShownOnTime, ShownInJourney, ReadyAt, RideCount, JourneyDeparture, LeavesAt,
      Aligned;
    var it :| Presents(q, it, j);
    var legs := LegsOf(q, it);
    FeasibleTravels(q, it);
    RidesHaveLegs(q, it);
    AlignedAlike(legs);
    AlikeReady(q, legs, j.legs);
    AlikeTravels(q, legs, j.legs, false);
    AlignedShown(q, legs);
    FirstLegLeaves(q, j.legs);
    var last := |legs| - 1;
    assert Alike(legs[last], j.legs[last]);
  }

  lemma FirstLegLeaves(q: Query, legs: seq<Leg>)
    requires ValidQuery(q) && Travels(q, legs, false)
    ensures JourneyDeparture(q, legs) == LeavesAt(q, legs[0])
  {
    assert LegPossible(q, legs[..0], legs[0], false);
    if legs[0].RideLeg? {
      var r, t, i, j :| OnTrip(q, legs[0], r, t, i, j);
      assert ValidRoute(q.tt, r);
    }
  }

  /** A target is an origin, or can be reached on foot by `time`. */
  ghost predicate WalkedBy(q: Query, time: int) {
    || (q.departure <= time && exists o :: o in q.origins && o in q.targets)
    || exists legs: seq<Leg> :: Travels(q, legs, false) && RideCount(legs) == 0 && legs[|legs| - 1].to in q.targets
                      && ReadyAt(q, legs) <= time
  }

  ghost predicate AsGood(q: Query, journeys: seq<Journey>, legs: seq<Leg>) {
    || (exists j :: j in journeys && j.arrival <= ReadyAt(q, legs) && j.transferCount + 1 <= RideCount(legs))
    || WalkedBy(q, ReadyAt(q, legs))
  }

  /** The legs lead to a target with no more vehicles than the request allows. */
  ghost predicate Wanted(q: Query, legs: seq<Leg>) {
    && ShownOnTime(q, legs) && RideCount(legs) <= q.maxTransfers + 1
    && |legs| > 0 && legs[|legs| - 1].to in q.targets
  }

  lemma OnFootTravels(q: Query, time: int)
    requires ValidQuery(q) && ReachedOnFoot(q, time)
    ensures WalkedBy(q, time)
  {
    var it :| OnFoot(q, it, time);
    FeasibleTravels(q, it);
    assert it.Extend? ==> Travels(q, LegsOf(q, it), false);
  }

  /** Answering itineraries is answering legs. */
  lemma AnswersLegs(q: Query, journeys: seq<Journey>, legs: seq<Leg>, careful: bool)
    requires ValidQuery(q) && Travels(q, legs, careful) && Wanted(q, legs)
    requires forall it :: Feasible(q, it) && (careful ==> Robust(q, it) && RidesOrderlyRoutes(q, it)) && WithinLimits(q, it) ==>
               Answered(q, journeys, it)
    ensures AsGood(q, journeys, legs)
  {
    var it := TravelsFeasible(q, legs, careful);
    assert Answered(q, journeys, it);
    if ReachedOnFoot(q, Time(q, it)) {
      OnFootTravels(q, Time(q, it));
    } else {
      var j :| j in journeys && NoWorse(j, q, it);
    }
  }

  /** `raptor_with_stats_excluding_routes`: every journey is the presentation of a feasible itinerary, the journeys are
      strictly Pareto ordered, and every robust itinerary over orderly routes within the transfer limit is answered. */
  method Raptor(q: Query) returns (journeys: seq<Journey>)
    requires ValidQuery(q)
    ensures forall j :: j in journeys ==> IsJourney(q, j) && j.transferCount <= q.maxTransfers
    ensures ParetoSorted(journeys)
    ensures forall it :: Robust(q, it) && RidesOrderlyRoutes(q, it) && WithinLimits(q, it) ==> Answered(q, journeys, it)
    ensures forall j :: j in journeys ==> Kept(q, j)
    ensures forall legs :: Travels(q, legs, true) && Wanted(q, legs) ==> AsGood(q, journeys, legs)
  {
    var search := new Search(q);
    ghost var done := search.Run();
    var found := CollectJourneys(search, done);
    journeys := Sort(found, JourneyOrder);
    SortedByRounds(found);
    forall j | j in journeys
      ensures IsJourney(q, j) && j.transferCount <= q.maxTransfers
    {
      CollectedJourneysSound(q, done, found, j);
    }
    forall it | Robust(q, it) && RidesOrderlyRoutes(q, it) && WithinLimits(q, it)
      ensures Answered(q, journeys, it)
    {
      CollectedAnswers(q, done, found, it);
    }
    forall j | j in journeys
      ensures Kept(q, j)
    {
      JourneyKept(q, j);
    }
    forall legs | Travels(q, legs, true) && Wanted(q, legs)
      ensures AsGood(q, journeys, legs)
    {
      AnswersLegs(q, journeys, legs, true);
    }
  }
}
