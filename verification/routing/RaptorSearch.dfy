/** The search itself: round labels held in arrays and updated in place, one method for each loop of the original. */
module RaptorSearch {
  import opened Machine
  import opened Network
  import opened Realtime
  import opened Itineraries
  import opened RaptorInvariant
  import opened RaptorWalking
  import opened RaptorScanning
  import opened RaptorHistory

  class Search {
    const q: Query
    const best: array<U32>
    const rounds: array<seq<U32>>
    const parents: array<map<nat, Parent>>
    const flags: array<bool>
    const positions: array<int>  // -1 stands for usize::MAX
    var marked: seq<nat>
    ghost var stamp: seq<nat>
    ghost var clock: nat

    constructor (query: Query)
      ensures q == query && Untouched() && Idle()
      ensures fresh(this) && fresh(Arrays()) && fresh(positions)
    {
      q := query;
      best := new U32[query.stopCount](_ => U32_MAX);
      rounds := new seq<U32>[query.maxTransfers + 2](_ => seq(query.stopCount, _ => U32_MAX));
      parents := new map<nat, Parent>[query.maxTransfers + 2](_ => map[]);
      flags := new bool[query.stopCount](_ => false);
      positions := new int[|query.tt.routes|](_ => -1);
      marked := [];
      stamp := seq(query.stopCount, _ => 0);
      clock := 1;
    }

    ghost function Arrays(): set<object> {
      {best, rounds, parents, flags}
    }

    ghost predicate Allocated()
      reads this, Arrays()
    {
      && positions as object !in Arrays()
      && best.Length == flags.Length == |stamp| == q.stopCount
      && rounds.Length == parents.Length == q.maxTransfers + 2
      && forall k :: 0 <= k < rounds.Length ==> |rounds[k]| == q.stopCount
    }

    /** The round in progress, as a value. */
    ghost function Current(round: nat): Front
      requires round < rounds.Length && round < parents.Length
      reads this, Arrays()
    {
      Front(round, rounds[round], parents[round], stamp, clock, best[..], marked, flags[..])
    }

    /** Rounds other than `round` are as they were. */
    twostate predicate OthersKept(round: nat)
      reads this, Arrays()
    {
      forall k :: 0 <= k < rounds.Length && k < parents.Length && k != round ==>
           rounds[k] == old(rounds[k]) && parents[k] == old(parents[k])
    }

    method MarkStop(stop: nat)
      requires Allocated() && stop < q.stopCount
      modifies this`marked, flags
      ensures Allocated()
      ensures marked == if old(flags[stop]) then old(marked) else old(marked) + [stop]
      ensures flags[..] == old(flags[..])[stop := true]
    {
      if !flags[stop] {
        flags[stop] := true;
        marked := marked + [stop];
      }
    }

    /** The assignments both relaxations make when they find an improvement. */
    method SetLabel(round: nat, stop: nat, time: U32, parent: Parent)
      requires Allocated() && round < rounds.Length && stop < q.stopCount
      modifies this, best, rounds, parents, flags
      ensures Allocated()
      ensures Current(round) == Write(old(Current(round)), stop, time, parent)
      ensures OthersKept(round)
    {
      rounds[round] := rounds[round][stop := time];
      best[stop] := time;
      MarkStop(stop);
      parents[round] := parents[round][stop := parent];
      stamp := stamp[stop := clock];
      clock := clock + 1;
      assert best[..] == old(best[..])[stop := time];
    }

    method RelaxTransfers(round: nat, bound: U32, ghost past: Past)
      requires Allocated() && LinksStay(q) && round < rounds.Length
      requires RoundInvariant(q, past, Current(round))
      requires bound <= past.bound
      requires RidesOnly(Current(round))
      modifies this, best, rounds, parents, flags
      ensures Allocated() && OthersKept(round)
      ensures RoundInvariant(q, past, Current(round))
      ensures Pending(q, Current(round), [], bound, -1) && WalksTight(Current(round))
      ensures NoLater(best[..], old(best[..]))
    {
      assert Pending(q, Current(round), marked, bound, -1);
      assert WalksBelow(Current(round), bound);
      hide RoundInvariant, Pending, WalksBelow, Following, LinksStay, Sum, WalksTight;
      var queue := marked;
      while |queue| > 0
        invariant Allocated() && OthersKept(round)
        invariant RoundInvariant(q, past, Current(round))
        invariant Pending(q, Current(round), queue, bound, -1) && WalksBelow(Current(round), bound)
        invariant NoLater(best[..], old(best[..]))
        decreases Sum(best[..]), |queue|
      {
        StartFollowing(q, past, Current(round), queue, bound);
        var from := queue[|queue| - 1];
        queue := queue[..|queue| - 1];
        if rounds[round][from] != U32_MAX {
          queue := RelaxFrom(round, from, queue, bound, past);
        }
      }
      assert queue == [];
      SettledMeansTight(q, past, Current(round), bound);
    }

    /** The links of one stop taken from the worklist. */
    method RelaxFrom(round: nat, from: nat, waiting: seq<nat>, bound: U32, ghost past: Past) returns (queue: seq<nat>)
      requires Allocated() && LinksStay(q) && round < rounds.Length && from < q.stopCount
      requires Following(q, past, Current(round), waiting, bound, from, 0)
      modifies this, best, rounds, parents, flags
      ensures Allocated() && OthersKept(round)
      ensures RoundInvariant(q, past, Current(round))
      ensures Pending(q, Current(round), queue, bound, -1) && WalksBelow(Current(round), bound)
      ensures NoLater(best[..], old(best[..]))
      ensures Sum(best[..]) < Sum(old(best[..])) || (best[..] == old(best[..]) && queue == waiting)
    {
      hide RoundInvariant, Pending, WalksBelow, Following;
      var departure := rounds[round][from];
      var links := Links(q, from);
      queue := waiting;
      for n := 0 to |links|
        invariant Allocated() && OthersKept(round)
        invariant Following(q, past, Current(round), queue, bound, from, n)
        invariant rounds[round][from] == departure
        invariant NoLater(best[..], old(best[..]))
        invariant Sum(best[..]) < Sum(old(best[..])) || (best[..] == old(best[..]) && queue == waiting)
      {
        var l := links[n];
        assert l in Links(q, from);
        var arrival := SatAdd(departure, l.seconds);
        if arrival < bound && arrival < best[l.to] {
          FollowLink(q, past, Current(round), queue, bound, from, n);
          SetLabel(round, l.to, arrival, WalkFrom(from, departure, arrival));
          queue := queue + [l.to];
        } else {
          SkipLink(q, past, Current(round), queue, bound, from, n);
        }
      }
      FollowedAll(q, past, Current(round), queue, bound, from);
    }

    ghost predicate FollowsPast(round: nat, past: Past)
      requires round < rounds.Length && round < parents.Length
      reads this, Arrays()
    {
      round > 0 && past.row == rounds[round - 1] && past.parents == parents[round - 1]
    }

    /** Getting off at `index`: the label of the stop takes the arrival if it is an improvement below the target. */
    method Alight(round: nat, r: nat, index: nat, a: Aboard, bound: U32, ghost past: Past)
      requires Allocated() && 0 < round < rounds.Length
      requires RoundInvariant(q, past, Current(round)) && RidesOnly(Current(round))
      requires bound == past.bound
      requires a.board < index && CanBoard(q, round, past, r, a.trip, a.board) && DropsOff(q, r, a.trip, index)
      requires a.official == TransferSlack(q, round, StopAt(q, r, a.board), past.parents).1
      requires StopAt(q, r, index) < q.stopCount
      modifies this, best, rounds, parents, flags
      ensures Allocated() && OthersKept(round)
      ensures Current(round) == Alighted(q, old(Current(round)), r, a, index, bound)
      ensures RoundInvariant(q, past, Current(round)) && RidesOnly(Current(round))
      ensures NoLater(best[..], old(best[..]))
      ensures Reached(best[..], bound, StopAt(q, r, index), Arrival(q, r, a.trip, index))
    {
      assert IsVisit(q, r, a.trip, a.board) && IsVisit(q, r, a.trip, index);
      hide RoundInvariant, CanBoard, RidesOnly, NoLater, Reached;
      var trip := q.tt.routes[r].trips[a.trip];
      var stopTime := trip.stopTimes[index];
      var stop := q.tt.routes[r].stopIndices[index];
      var arrival := q.realtime.AdjustedTime(trip.tripId, stopTime.stopId, stopTime.arrival);
      if arrival < bound && arrival < best[stop] {
        var boardedAt := trip.stopTimes[a.board];
        var departure := q.realtime.AdjustedTime(trip.tripId, boardedAt.stopId, boardedAt.departure);
        var boardedStop := q.tt.routes[r].stopIndices[a.board];
        var parent := RideFrom(
          boardedStop, round - 1, trip.tripId, trip.routeId, trip.mode, boardedAt.departure, stopTime.arrival,
          a.official, departure != boardedAt.departure || arrival != stopTime.arrival);
        assert parent == RideParent(q, round, r, a, index);
        RideWriteKeeps(q, past, Current(round), r, a, index);
        SetLabel(round, stop, arrival, parent);
      } else {
        NoRideWrite(q, best[..], r, a, index, bound);
      }
    }

    /** Boarding at `index`: the first trip that can be caught replaces the current one if it leaves strictly earlier. */
    method Board(round: nat, r: nat, start: nat, index: nat, current: Option<Aboard>, bounds: Bounds, ghost past: Past)
        returns (next: Option<Aboard>)
      requires Allocated() && round < rounds.Length && FollowsPast(round, past) && |past.row| == q.stopCount
      requires RouteReady(q, r, bounds) && EvenLengths(q, r) && RouteAllowed(q, r)
      requires start <= index < |q.tt.routes[r].stopIndices|
      requires Riding(q, round, past, r, start, index, current)
      ensures Riding(q, round, past, r, start, index + 1, next)
    {
      var stop := q.tt.routes[r].stopIndices[index];
      var previous := rounds[round - 1][stop];
      if previous == U32_MAX {
        NoBoarding(q, round, past, r, start, index, current);
        return current;
      }
      var (slack, official) := TransferSlack(q, round, stop, parents[round - 1]);
      var ready := SatAdd(previous, slack);
      EarliestBoardableCatches(q, r, index, ready, bounds);
      var c := EarliestCatchable(
        q.tt.routes[r].trips, DepartureLists(q, r), index, ready, q.realtime, bounds);
      BoardStep(q, round, past, r, start, index, current, c);
      hide Riding, Catches, RouteReady;
      if c.Some? {
        next := Switch(q, r, index, current, c.value, official);
      } else {
        next := current;
      }
    }

    method ScanRoute(round: nat, r: nat, start: nat, bound: U32, bounds: Bounds, ghost past: Past)
      requires Allocated() && round < rounds.Length && FollowsPast(round, past)
      requires RoundInvariant(q, past, Current(round)) && RidesOnly(Current(round))
      requires bound == past.bound
      requires RouteReady(q, r, bounds) && EvenLengths(q, r) && RouteAllowed(q, r)
      requires start < |q.tt.routes[r].stopIndices|
      modifies this, best, rounds, parents, flags
      ensures Allocated() && OthersKept(round)
      ensures RoundInvariant(q, past, Current(round)) && RidesOnly(Current(round))
      ensures NoLater(best[..], old(best[..]))
      ensures Served(q, round, past, r, best[..], bound, start, |q.tt.routes[r].stopIndices|)
    {
      hide RoundInvariant, Served, Leads, Orderly, EvenLengths;
      var current: Option<Aboard> := None;
      assert Served(q, round, past, r, best[..], bound, start, start) by {
        NothingServed(q, round, past, r, best[..], bound, start);
      }
      assert Riding(q, round, past, r, start, start, current) by {
        NothingLeads(q, round, past, r, start);
      }
      for index := start to |q.tt.routes[r].stopIndices|
        invariant Allocated() && OthersKept(round) && FollowsPast(round, past)
        invariant RoundInvariant(q, past, Current(round)) && RidesOnly(Current(round))
        invariant NoLater(best[..], old(best[..]))
        invariant Riding(q, round, past, r, start, index, current)
        invariant Served(q, round, past, r, best[..], bound, start, index)
      {
        ghost var before := best[..];
        if current.Some? && q.tt.routes[r].trips[current.value.trip].stopTimes[index].dropOff {
          Alight(round, r, index, current.value, bound, past);
        }
        AlightStep(q, round, past, r, start, index, current, before, bound, best[..]);
        current := Board(round, r, start, index, current, bounds, past);
      }
    }

    /** Round 0: the origins carry the departure time. */
    method Seed()
      requires Allocated() && marked == [] && clock == 1
      requires forall s :: s in q.origins ==> s < q.stopCount
      requires forall s :: 0 <= s < q.stopCount ==> best[s] == U32_MAX && !flags[s] && stamp[s] == 0
      requires Unlabelled(rounds[0]) && parents[0] == map[]
      modifies this`marked, best, rounds, flags
      ensures Allocated() && OthersKept(0)
      ensures parents[0] == map[] && clock == 1
      ensures forall s :: 0 <= s < q.stopCount ==> best[s] == rounds[0][s] && stamp[s] == 0
      ensures forall s :: 0 <= s < q.stopCount ==> rounds[0][s] == if s in q.origins then q.departure else U32_MAX
      ensures forall s :: s in marked ==> s < q.stopCount
      ensures forall s :: 0 <= s < q.stopCount ==> (flags[s] <==> s in marked) && (flags[s] <==> s in q.origins)
    {
      for n := 0 to |q.origins|
        invariant Allocated() && OthersKept(0)
        invariant forall s :: 0 <= s < q.stopCount ==> best[s] == rounds[0][s]
        invariant forall s :: 0 <= s < q.stopCount ==>
                    rounds[0][s] == if s in q.origins[..n] then q.departure else U32_MAX
        invariant forall s :: s in marked ==> s < q.stopCount
        invariant forall s :: 0 <= s < q.stopCount ==>
                    (flags[s] <==> s in marked) && (flags[s] <==> s in q.origins[..n])
      {
        var stop := q.origins[n];
        assert stop in q.origins;
        assert q.origins[..n + 1] == q.origins[..n] + [stop];
        rounds[0] := rounds[0][stop := q.departure];
        best[stop] := q.departure;
        ghost var before := flags[..];
        MarkStop(stop);
        assert forall s :: 0 <= s < q.stopCount && s != stop ==> flags[..][s] == before[s];
        assert flags[..][stop];
      }
      assert q.origins[..|q.origins|] == q.origins;
    }

    // -------------------------------------------------------------- one round

    ghost predicate Idle()
      reads positions
    {
      positions.Length == |q.tt.routes| && forall r :: 0 <= r < positions.Length ==> positions[r] == -1
    }

    /** The routes to scan in a round: those through a marked stop, each from the first such stop. */
    method CollectRoutes(previous: seq<nat>) returns (queue: seq<(nat, nat)>)
      requires StopRoutesExact(q) && Idle()
      modifies positions
      ensures Idle()
      ensures EntriesInRange(q, queue)
      ensures forall s :: s in previous ==> StopQueued(q, queue, s)
    {
      queue := [];
      for n := 0 to |previous|
        invariant PositionsFit(positions[..], queue) && positions.Length == |q.tt.routes|
        invariant EntriesInRange(q, queue)
        invariant forall m :: 0 <= m < n ==> StopQueued(q, queue, previous[m])
      {
        var longer := QueueStop(previous[n], queue);
        forall m | 0 <= m < n
          ensures StopQueued(q, longer, previous[m])
        {
          ExtendsKeepsStopQueued(q, queue, longer, previous[m]);
        }
        queue := longer;
      }
      ghost var full := positions[..];
      for n := 0 to |queue|
        invariant positions.Length == |full|
        invariant forall r :: 0 <= r < positions.Length ==>
                    positions[r] == if full[r] < n then -1 else full[r]
      {
        positions[queue[n].0] := -1;
      }
    }

    method QueueStop(stop: nat, shorter: seq<(nat, nat)>) returns (queue: seq<(nat, nat)>)
      requires StopRoutesExact(q) && positions.Length == |q.tt.routes|
      requires PositionsFit(positions[..], shorter) && EntriesInRange(q, shorter)
      modifies positions
      ensures PositionsFit(positions[..], queue) && EntriesInRange(q, queue)
      ensures Extends(shorter, queue) && StopQueued(q, queue, stop)
    {
      queue := shorter;
      if stop >= |q.tt.stopRoutes| {
        NothingQueued(shorter, []);
        return;
      }
      var visits := q.tt.stopRoutes[stop];
      hide PositionsFit, EntriesInRange, Extends, Queued, VisitsQueued, StopQueued;
      assert Extends(shorter, queue) && VisitsQueued(queue, visits, 0) by {
        NothingQueued(shorter, visits);
      }
      for n := 0 to |visits|
        invariant positions.Length == |q.tt.routes|
        invariant PositionsFit(positions[..], queue) && EntriesInRange(q, queue)
        invariant Extends(shorter, queue) && VisitsQueued(queue, visits, n)
      {
        var (r, i) := visits[n];
        assert visits[n] in q.tt.stopRoutes[stop];
        assert Visits(q.tt, r, i, stop);
        PositionInRange(positions[..], queue, r);
        EnqueueFits(q, positions[..], queue, r, i);
        VisitsQueuedStep(shorter, queue, Enqueue(positions[..], queue, r, i), visits, n);
        var position := positions[r];
        if position == -1 {
          positions[r] := |queue|;
          queue := queue + [(r, i)];
        } else if i < queue[position].1 {
          queue := queue[position := (queue[position].0, i)];
        }
      }
      AllVisitsQueued(q, queue, stop);
    }

    method ClearFlags(previous: seq<nat>)
      requires Allocated()
      requires forall s :: s in previous ==> s < q.stopCount
      requires forall s :: 0 <= s < flags.Length && flags[s] ==> s in previous
      modifies flags
      ensures forall s :: 0 <= s < flags.Length ==> !flags[s]
    {
      for n := 0 to |previous|
        invariant forall s :: 0 <= s < flags.Length && flags[s] ==> s in previous[n..]
      {
        assert previous[n] in previous;
        assert previous[n..] == [previous[n]] + previous[n + 1..];
        flags[previous[n]] := false;
      }
    }

    /** The completed rounds `done` are what the arrays hold, and the rounds after them are untouched. */
    ghost predicate Between(done: seq<Front>)
      reads this, Arrays()
    {
      && Allocated()
      && 0 < |done| <= rounds.Length
      && History(q, done)
      && Holds(rounds[..], parents[..], done)
      && Current(|done| - 1) == done[|done| - 1]
    }

    /** All queued routes of a round. */
    method ScanRoutes(round: nat, queue: seq<(nat, nat)>, bound: U32, bounds: seq<Bounds>, ghost past: Past)
      requires Allocated() && round < rounds.Length && FollowsPast(round, past)
      requires RoundInvariant(q, past, Current(round)) && RidesOnly(Current(round))
      requires bound == past.bound && EntriesInRange(q, queue)
      requires BoundsReady(q, bounds)
      modifies this, best, rounds, parents, flags
      ensures Allocated() && OthersKept(round)
      ensures RoundInvariant(q, past, Current(round)) && RidesOnly(Current(round))
      ensures NoLater(best[..], old(best[..]))
      ensures QueueServed(q, round, past, queue, |queue|, best[..], bound)
    {
      hide RoundInvariant, Served, RouteReady, EvenLengths, RidesOnly;
      for n := 0 to |queue|
        invariant Allocated() && OthersKept(round) && FollowsPast(round, past)
        invariant RoundInvariant(q, past, Current(round)) && RidesOnly(Current(round))
        invariant NoLater(best[..], old(best[..]))
        invariant QueueServed(q, round, past, queue, n, best[..], bound)
      {
        var (r, start) := queue[n];
        ghost var before := best[..];
        if RouteAllowed(q, r) {
          ScanRoute(round, r, start, bound, bounds[r], past);
        }
        QueueServedStays(q, round, past, queue, n, before, bound, best[..]);
      }
    }

    /** Take the marked stops, queue the routes through them and start with an empty row of labels. */
    method OpenRound(round: nat, ghost done: seq<Front>, ghost past: Past) returns (queue: seq<(nat, nat)>)
      requires Between(done) && Idle() && round == |done| < rounds.Length
      requires StopRoutesExact(q) && past == PastOf(q, done, |done|)
      modifies this`marked, flags, positions
      ensures Allocated() && Idle()
      ensures RoundInvariant(q, past, Current(round)) && RidesOnly(Current(round)) && FollowsPast(round, past)
      ensures EntriesInRange(q, queue) && QueueCovers(q, past, queue)
    {
      hide StopRoutesExact, StopQueued, EntriesInRange, Explained, OriginsKept, WalksTight, Pending, RoundInvariant,
        AllServed, RidesOnly;
      var previous := marked;
      MarkedBefore(q, done);
      marked := [];
      ClearFlags(previous);
      assert flags[..] == seq(q.stopCount, _ => false);
      queue := CollectRoutes(previous);
      FreshRound(q, done, Current(round));
    }

    /** Scan the queued routes, then walk on from every stop reached. */
    method WorkRound(round: nat, queue: seq<(nat, nat)>, bounds: seq<Bounds>, ghost past: Past)
      requires Allocated() && round < rounds.Length && FollowsPast(round, past)
      requires LinksStay(q) && StopRoutesExact(q) && TargetsKnown(q)
      requires RoundInvariant(q, past, Current(round)) && RidesOnly(Current(round))
      requires past.bound == TargetBound(q.targets, best[..])
      requires EntriesInRange(q, queue) && QueueCovers(q, past, queue)
      requires BoundsReady(q, bounds)
      modifies this, best, rounds, parents, flags
      ensures Allocated() && OthersKept(round)
      ensures Finished(q, past, Current(round))
    {
      hide RoundInvariant, RidesOnly, LinksStay, BoundsReady, QueueServed, AllServed, Served, Pending,
        WalksTight, StopRoutesExact, EntriesInRange, QueueCovers;
      var bound := TargetBound(q.targets, best[..]);
      ghost var before := best[..];
      ScanRoutes(round, queue, bound, bounds, past);
      var final := TargetBound(q.targets, best[..]);
      TargetBoundMonotone(q.targets, before, best[..]);
      ghost var scanned := best[..];
      QueueServesAll(q, round, past, queue, scanned, bound);
      RelaxTransfers(round, final, past);
      TargetBoundMonotone(q.targets, scanned, best[..]);
      AllServedStays(q, round, past, scanned, bound, best[..]);
      CloseRound(q, past, Current(round), final);
    }

    method RunRound(round: nat, bounds: seq<Bounds>, ghost done: seq<Front>) returns (ghost longer: seq<Front>)
      requires Between(done) && Idle() && round == |done| < rounds.Length
      requires LinksStay(q) && StopRoutesExact(q)
      requires BoundsReady(q, bounds)
      modifies this, best, rounds, parents, flags, positions
      ensures Between(longer) && Idle()
      ensures |longer| == |done| + 1 && longer[..|done|] == done
    {
      ghost var past := PastOf(q, done, |done|);
      assert TargetsKnown(q) && past.bound == TargetBound(q.targets, best[..]);
      hide LinksStay, StopRoutesExact, BoundsReady, RoundInvariant, RidesOnly, Finished, QueueCovers,
        EntriesInRange, History, PastOf, TargetsKnown, Holds;
      ghost var rows, links := rounds[..], parents[..];
      var queue := OpenRound(round, done, past);
      assert rounds[..] == rows && parents[..] == links;
      WorkRound(round, queue, bounds, past);
      ghost var f := Current(round);
      RoundAppended(q, done, f, rows, links, rounds[..], parents[..]);
      longer := done + [f];
    }

    /** Nothing has been searched yet. */
    ghost predicate Untouched()
      reads this, Arrays()
    {
      && Allocated()
      && marked == [] && clock == 1
      && (forall s :: 0 <= s < q.stopCount ==> best[s] == U32_MAX && !flags[s] && stamp[s] == 0)
      && (forall k :: 0 <= k < rounds.Length ==> Unlabelled(rounds[k]) && parents[k] == map[])
    }

    method SeedRound()
      requires Untouched() && TargetsKnown(q)
      requires forall s :: s in q.origins ==> s < q.stopCount
      modifies this, best, rounds, flags
      ensures Allocated() && OthersKept(0)
      ensures RoundInvariant(q, BeforeAll(q), Current(0)) && RidesOnly(Current(0))
    {
      hide RoundInvariant, RidesOnly;
      Seed();
      Seeded(q, Current(0));
    }

    /** Round 0 with its walks. */
    method FirstRound() returns (ghost done: seq<Front>)
      requires Untouched() && TargetsKnown(q) && LinksStay(q)
      requires forall s :: s in q.origins ==> s < q.stopCount
      modifies this, best, rounds, parents, flags
      ensures Between(done) && |done| == 1
    {
      ghost var rows, links := rounds[..], parents[..];
      assert History(q, []) && Holds(rows, links, []);
      assert PastOf(q, [], 0) == BeforeAll(q);
      hide LinksStay, RoundInvariant, RidesOnly, Finished, WalksTight, Pending, History, PastOf, Holds, Unlabelled;
      SeedRound();
      RelaxTransfers(0, U32_MAX, BeforeAll(q));
      ghost var f := Current(0);
      HoldsMore(rows, links, [], rounds[..], parents[..], f);
      CloseRound(q, BeforeAll(q), f, U32_MAX);
      HistoryGrows(q, [], f);
      done := [f];
      assert [] + done == done;
    }

    /** All rounds, until one finds nothing. */
    method Run() returns (ghost done: seq<Front>)
      requires Untouched() && Idle() && ValidQuery(q)
      modifies this, best, rounds, parents, flags, positions
      ensures Between(done) && Complete(q, done)
    {
      var bounds := DelayBoundsByRoute(q.realtime, q.tt);
      RouteBoundsHold(q.realtime, q.tt, bounds);
      ValidQueryLinksStay(q);
      ValidQueryStopRoutesExact(q);
      ValidQueryBoundsReady(q, bounds);
      done := FirstRound();
      hide ValidQuery, LinksStay, StopRoutesExact, BoundsReady, BoundsHold, AllRouteBounds, History, Holds;
      for round := 1 to q.maxTransfers + 2
        invariant Between(done) && Idle() && |done| == round
      {
        if marked == [] {
          NothingMarked(q, done);
          return;
        }
        done := RunRound(round, bounds, done);
      }
    }
  }
}
