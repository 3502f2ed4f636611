/** `direct_journeys`: direct services between the requested endpoints, collected pair by pair with bounded memory. */
module DirectJourneys {
  import opened Machine
  import opened Sorting
  import opened Network
  import opened Realtime
  import opened Itineraries
  import LegLaws
  import opened RaptorScanning
  import opened TimetableBuilder
  import opened Selection
  import opened SelectionLaws
  import opened Truncation

  // ---------------------------------------------------------------- what a direct service is

  function LatestDeparture(q: Query, window: U32): U32 {
    SatAdd(q.departure, window)
  }

  /** Trip `t` of route `r` can be taken from position `i` to position `j` within the window of effective departures. */
  predicate IsDirect(q: Query, window: U32, r: nat, i: nat, j: nat, t: nat) {
    && TripAllowed(q, r, t) && PicksUp(q, r, t, i) && DropsOff(q, r, t, j)
    && q.departure <= Departure(q, r, t, i) <= LatestDeparture(q, window)
    && Departure(q, r, t, i) <= Arrival(q, r, t, j)
  }

  function CandidateOf(q: Query, r: nat, i: nat, j: nat, t: nat): Candidate
    requires IsVisit(q, r, t, i) && IsVisit(q, r, t, j)
  {
    var trip := q.tt.routes[r].trips[t];
    Candidate(trip.tripId, trip.routeId, trip.stopTimes[i].stopId, trip.stopTimes[j].stopId, trip.mode,
              trip.stopTimes[i].departure, trip.stopTimes[j].arrival, Departure(q, r, t, i), Arrival(q, r, t, j))
  }

  /** The direct services among the listed trips, in the order of the list. */
  ghost function DirectsIn(q: Query, window: U32, r: nat, i: nat, j: nat, indices: seq<nat>): seq<Candidate> {
    if |indices| == 0 then []
    else
      var front := DirectsIn(q, window, r, i, j, indices[..|indices| - 1]);
      var t := indices[|indices| - 1];
      if IsDirect(q, window, r, i, j, t) then front + [CandidateOf(q, r, i, j, t)] else front
  }

  type Endpoints = (nat, nat, nat)

  /** The modes the request allows; excluded lines play no part here. */
  predicate ModeAllowed(q: Query, r: nat) {
    && r < |q.tt.routes| && |q.tt.routes[r].trips| > 0
    && (q.modes == {} || q.tt.routes[r].trips[0].mode in q.modes)
  }

  /** All direct services of one endpoint pair. */
  ghost function DirectsOf(q: Query, window: U32, e: Endpoints): seq<Candidate> {
    if ModeAllowed(q, e.0) && e.1 < |DepartureLists(q, e.0)|
    then DirectsIn(q, window, e.0, e.1, e.2, DepartureLists(q, e.0)[e.1])
    else []
  }

  ghost function DirectGroups(q: Query, window: U32, pairs: seq<Endpoints>): (groups: seq<seq<Candidate>>)
    ensures |groups| == |pairs| && forall n :: 0 <= n < |pairs| ==> groups[n] == DirectsOf(q, window, pairs[n])
  {
    seq(|pairs|, n requires 0 <= n < |pairs| => DirectsOf(q, window, pairs[n]))
  }

  predicate EndpointOrder(x: Endpoints, y: Endpoints) {
    Before(x.0, y.0, Before(x.1, y.1, x.2 <= y.2))
  }

  /** From an origin stop to a later target stop of the same route. */
  ghost predicate IsEndpoints(q: Query, e: Endpoints) {
    && e.0 < |q.tt.routes| && e.1 < e.2 < |q.tt.routes[e.0].stopIndices|
    && StopAt(q, e.0, e.1) in q.origins && StopAt(q, e.0, e.2) in q.targets
  }

  /** All endpoint pairs, in ascending order and each once. */
  ghost predicate EndpointList(q: Query, pairs: seq<Endpoints>) {
    && (forall e :: e in pairs <==> IsEndpoints(q, e))
    && (forall a, b :: 0 <= a < b < |pairs| ==> EndpointOrder(pairs[a], pairs[b]) && pairs[a] != pairs[b])
  }

  // ---------------------------------------------------------------- endpoint pairs

  predicate Lists(positions: map<nat, set<nat>>, r: nat, j: nat) {
    r in positions && j in positions[r]
  }

  method AddVisits(q: Query, known: map<nat, set<nat>>, stop: nat) returns (positions: map<nat, set<nat>>)
    requires StopRoutesExact(q)
    ensures forall r: nat, j: nat :: Lists(positions, r, j) <==> Lists(known, r, j) || Visits(q.tt, r, j, stop)
  {
    positions := known;
    if stop >= |q.tt.stopRoutes| {
      return;
    }
    var visits := q.tt.stopRoutes[stop];
    for n := 0 to |visits|
      invariant forall r: nat, j: nat :: Lists(positions, r, j) <==> Lists(known, r, j) || (r, j) in visits[..n]
    {
      var (r, j) := visits[n];
      assert visits[..n + 1] == visits[..n] + [visits[n]];
      positions := positions[r := (if r in positions then positions[r] else {}) + {j}];
    }
    assert visits[..|visits|] == visits;
  }

  /** The target positions of each route. */
  method DestinationPositions(q: Query) returns (positions: map<nat, set<nat>>)
    requires StopRoutesExact(q)
    ensures forall r: nat, j: nat :: Lists(positions, r, j) <==> exists t :: t in q.targets && Visits(q.tt, r, j, t)
  {
    positions := map[];
    for n := 0 to |q.targets|
      invariant forall r: nat, j: nat ::
                  Lists(positions, r, j) <==> exists t :: t in q.targets[..n] && Visits(q.tt, r, j, t)
    {
      assert q.targets[..n + 1] == q.targets[..n] + [q.targets[n]];
      positions := AddVisits(q, positions, q.targets[n]);
    }
    assert q.targets[..|q.targets|] == q.targets;
  }

  ghost predicate FromStop(q: Query, e: Endpoints, stop: nat, positions: map<nat, set<nat>>) {
    Visits(q.tt, e.0, e.1, stop) && e.1 < e.2 && Lists(positions, e.0, e.2)
  }

  method AddPairs(q: Query, known: set<Endpoints>, stop: nat, positions: map<nat, set<nat>>)
      returns (pairs: set<Endpoints>)
    requires StopRoutesExact(q)
    ensures forall e :: e in pairs <==> e in known || FromStop(q, e, stop, positions)
  {
    pairs := known;
    if stop >= |q.tt.stopRoutes| {
      return;
    }
    var visits := q.tt.stopRoutes[stop];
    for n := 0 to |visits|
      invariant forall e :: e in pairs <==>
                  e in known || ((e.0, e.1) in visits[..n] && e.1 < e.2 && Lists(positions, e.0, e.2))
    {
      var (r, i) := visits[n];
      assert visits[..n + 1] == visits[..n] + [visits[n]];
      if r in positions {
        var added := set j | j in positions[r] && i < j :: (r, i, j);
        pairs := pairs + added;
      }
    }
    assert visits[..|visits|] == visits;
  }

  lemma EndpointOrderTotal()
    ensures TotalPreorder(EndpointOrder)
  {
  }

  /** The endpoint pairs as the ordered set yields them. */
  method EndpointPairs(q: Query) returns (pairs: seq<Endpoints>)
    requires StopRoutesExact(q)
    ensures EndpointList(q, pairs)
  {
    var positions := DestinationPositions(q);
    var found: set<Endpoints> := {};
    for n := 0 to |q.origins|
      invariant forall e :: e in found <==> exists s :: s in q.origins[..n] && FromStop(q, e, s, positions)
    {
      assert q.origins[..n + 1] == q.origins[..n] + [q.origins[n]];
      found := AddPairs(q, found, q.origins[n], positions);
    }
    assert q.origins[..|q.origins|] == q.origins;
    forall e
      ensures e in found <==> IsEndpoints(q, e)
    {
      if IsEndpoints(q, e) {
        assert Visits(q.tt, e.0, e.2, StopAt(q, e.0, e.2));
        assert FromStop(q, e, StopAt(q, e.0, e.1), positions);
      }
    }
    var unsorted := Elements(found);
    EndpointOrderTotal();
    SortSorts(unsorted, EndpointOrder);
    pairs := Sort(unsorted, EndpointOrder);
    DistinctPermuted(unsorted, pairs);
  }

  // ---------------------------------------------------------------- one pair

  /** Trips before the search window cannot be direct services, whatever their delay. */
  lemma {:induction false} EarlyNotDirect(q: Query, window: U32, r: nat, i: nat, j: nat, indices: seq<nat>, n: nat,
                                          bounds: Bounds)
    requires r < |q.tt.routes| && n <= |indices|
    requires ListedAt(q.tt.routes[r].trips, indices, i)
    requires DelaysWithin(q.tt.routes[r].trips, indices, i, q.realtime, bounds)
    requires forall m :: 0 <= m < n ==>
               q.tt.routes[r].trips[indices[m]].stopTimes[i].departure < SatSub(q.departure, bounds.maxPositive)
    ensures DirectsIn(q, window, r, i, j, indices[..n]) == []
  {
    if n > 0 {
      EarlyNotDirect(q, window, r, i, j, indices, n - 1, bounds);
      assert indices[..n][..n - 1] == indices[..n - 1];
      var trip := q.tt.routes[r].trips[indices[n - 1]];
      assert Within(q.realtime.DelaySeconds(trip.tripId, trip.stopTimes[i].stopId), bounds);
    }
  }

  /** Nor can trips after it. */
  lemma {:induction false} LateNotDirect(q: Query, window: U32, r: nat, i: nat, j: nat, indices: seq<nat>, n: nat,
                                         bounds: Bounds)
    requires r < |q.tt.routes| && n <= |indices|
    requires ListedAt(q.tt.routes[r].trips, indices, i)
    requires DelaysWithin(q.tt.routes[r].trips, indices, i, q.realtime, bounds)
    requires forall m :: n <= m < |indices| ==>
               q.tt.routes[r].trips[indices[m]].stopTimes[i].departure
               > SatAdd(LatestDeparture(q, window), bounds.maxEarly)
    ensures DirectsIn(q, window, r, i, j, indices) == DirectsIn(q, window, r, i, j, indices[..n])
  {
    if n < |indices| {
      var front := indices[..|indices| - 1];
      assert front[..n] == indices[..n];
      LateNotDirect(q, window, r, i, j, front, n, bounds);
      var trip := q.tt.routes[r].trips[indices[|indices| - 1]];
      assert Within(q.realtime.DelaySeconds(trip.tripId, trip.stopTimes[i].stopId), bounds);
    } else {
      assert indices[..n] == indices;
    }
  }

  /** Adding one candidate to the best so far. */
  lemma BestGrows(group: seq<Candidate>, c: Candidate, k: nat)
    ensures Best(group + [c], k) == Take(Sort(Best(group, k) + [c], CandidateOrder), k)
  {
    CandidateOrderTotal();
    SortSorts(group, CandidateOrder);
    TakeSorted(Sort(group, CandidateOrder), c, k, CandidateOrder);
    SortFront(group, [c], CandidateOrder);
  }

  /** The candidate a listed trip gives, if it is a direct service. */
  method Consider(q: Query, window: U32, e: Endpoints, t: nat) returns (c: Option<Candidate>)
    requires IsVisit(q, e.0, t, e.1) && IsVisit(q, e.0, t, e.2) && TripAllowed(q, e.0, t)
    ensures c == if IsDirect(q, window, e.0, e.1, e.2, t) then Some(CandidateOf(q, e.0, e.1, e.2, t)) else None
  {
    var trip := q.tt.routes[e.0].trips[t];
    var boardedAt := trip.stopTimes[e.1];
    var alightedAt := trip.stopTimes[e.2];
    if !boardedAt.pickup || !alightedAt.dropOff {
      return None;
    }
    var departure := q.realtime.AdjustedTime(trip.tripId, boardedAt.stopId, boardedAt.departure);
    if departure < q.departure || departure > LatestDeparture(q, window) {
      return None;
    }
    var arrival := q.realtime.AdjustedTime(trip.tripId, alightedAt.stopId, alightedAt.arrival);
    if arrival < departure {
      return None;
    }
    c := Some(Candidate(trip.tripId, trip.routeId, boardedAt.stopId, alightedAt.stopId, trip.mode,
                        boardedAt.departure, alightedAt.arrival, departure, arrival));
  }

  lemma DirectsNext(q: Query, window: U32, r: nat, i: nat, j: nat, indices: seq<nat>, n: nat)
    requires n < |indices|
    ensures var next, front := DirectsIn(q, window, r, i, j, indices[..n + 1]), DirectsIn(q, window, r, i, j, indices[..n]);
            if IsDirect(q, window, r, i, j, indices[n]) then next == front + [CandidateOf(q, r, i, j, indices[n])]
            else next == front
  {
    assert indices[..n + 1][..n] == indices[..n];
  }

  /** The listed trips run from `e.1` to `e.2`, sorted by departure, within the delay bounds. */
  ghost predicate PairListed(q: Query, e: Endpoints, indices: seq<nat>, bounds: Bounds) {
    && e.0 < |q.tt.routes|
    && ListedAt(q.tt.routes[e.0].trips, indices, e.1) && SortedByDeparture(q.tt.routes[e.0].trips, indices, e.1)
    && DelaysWithin(q.tt.routes[e.0].trips, indices, e.1, q.realtime, bounds)
    && forall n :: 0 <= n < |indices| ==>
         IsVisit(q, e.0, indices[n], e.1) && IsVisit(q, e.0, indices[n], e.2) && TripAllowed(q, e.0, indices[n])
  }

  lemma ReadyPairListed(q: Query, e: Endpoints, bounds: Bounds)
    requires RouteReady(q, e.0, bounds) && e.1 < e.2 < |q.tt.routes[e.0].stopIndices|
    ensures e.1 < |DepartureLists(q, e.0)| && PairListed(q, e, DepartureLists(q, e.0)[e.1], bounds)
  {
    assert ListReady(q, e.0, bounds, e.1);
    var indices := DepartureLists(q, e.0)[e.1];
    assert forall n :: 0 <= n < |indices| ==> indices[n] in indices && TripAllowed(q, e.0, indices[n]);
  }

  /** Past the latest possible departure nothing is direct. */
  lemma RestNotDirect(q: Query, window: U32, e: Endpoints, indices: seq<nat>, n: nat, bounds: Bounds)
    requires PairListed(q, e, indices, bounds) && n < |indices|
    requires q.tt.routes[e.0].trips[indices[n]].stopTimes[e.1].departure
             > SatAdd(LatestDeparture(q, window), bounds.maxEarly)
    ensures DirectsIn(q, window, e.0, e.1, e.2, indices) == DirectsIn(q, window, e.0, e.1, e.2, indices[..n])
  {
    hide DirectsIn;
    LateNotDirect(q, window, e.0, e.1, e.2, indices, n, bounds);
  }

  /** The candidates of one pair, sorted and cut to the limit after every addition. */
  method CollectPair(q: Query, window: U32, e: Endpoints, bounds: Bounds, k: nat) returns (best: seq<Candidate>)
    requires RouteReady(q, e.0, bounds) && e.1 < e.2 < |q.tt.routes[e.0].stopIndices|
    ensures best == Best(DirectsIn(q, window, e.0, e.1, e.2, DepartureLists(q, e.0)[e.1]), k)
  {
    var (r, i, j) := e;
    ReadyPairListed(q, e, bounds);
    hide RouteReady, Best, DirectsIn;
    var trips := q.tt.routes[r].trips;
    var indices := DepartureLists(q, r)[i];
    var first := FirstDepartureFrom(trips, indices, i, SatSub(q.departure, bounds.maxPositive));
    EarlyNotDirect(q, window, r, i, j, indices, first, bounds);
    best := [];
    NothingBest(k);
    for n := first to |indices|
      invariant best == Best(DirectsIn(q, window, r, i, j, indices[..n]), k)
    {
      hide DelaysWithin, SortedByDeparture, IsDirect, CandidateOf;
      DirectsNext(q, window, r, i, j, indices, n);
      if trips[indices[n]].stopTimes[i].departure > SatAdd(LatestDeparture(q, window), bounds.maxEarly) {
        RestNotDirect(q, window, e, indices, n, bounds);
        return;
      }
      var c := Consider(q, window, e, indices[n]);
      if c.Some? {
        BestGrows(DirectsIn(q, window, r, i, j, indices[..n]), c.value, k);
        best := Take(Sort(best + [c.value], CandidateOrder), k);
      }
    }
    assert indices[..|indices|] == indices;
  }

  lemma NothingBest(k: nat)
    ensures Best([], k) == []
  {
  }

  // ---------------------------------------------------------------- all pairs

  lemma {:induction false} TruncatedAppend(groups: seq<seq<Candidate>>, group: seq<Candidate>, k: nat)
    ensures Truncated(groups + [group], k) == Truncated(groups, k) + Best(group, k)
  {
    hide Best;
    if |groups| > 0 {
      assert (groups + [group])[1..] == groups[1..] + [group];
      TruncatedAppend(groups[1..], group, k);
    } else {
      assert groups + [group] == [group];
      assert Truncated([group], k) == Best(group, k) + Truncated([], k);
    }
  }

  method CollectCandidates(q: Query, window: U32, pairs: seq<Endpoints>, bounds: seq<Bounds>, k: nat)
      returns (candidates: seq<Candidate>)
    requires BoundsReady(q, bounds) && EndpointList(q, pairs)
    ensures candidates == Truncated(DirectGroups(q, window, pairs), k)
  {
    candidates := [];
    ghost var groups := DirectGroups(q, window, pairs);
    for n := 0 to |pairs|
      invariant candidates == Truncated(groups[..n], k)
    {
      hide BoundsReady, Truncated, Best, DirectsOf, EndpointList;
      NextGroup(groups, n, k);
      ListedEndpoints(q, pairs, n);
      var best := CandidatesOf(q, window, pairs[n], bounds, k);
      candidates := candidates + best;
    }
    assert groups[..|groups|] == groups;
  }

  lemma NextGroup(groups: seq<seq<Candidate>>, n: nat, k: nat)
    requires n < |groups|
    ensures Truncated(groups[..n + 1], k) == Truncated(groups[..n], k) + Best(groups[n], k)
  {
    assert groups[..n + 1] == groups[..n] + [groups[n]];
    hide Truncated, Best;
    TruncatedAppend(groups[..n], groups[n], k);
  }

  lemma ListedEndpoints(q: Query, pairs: seq<Endpoints>, n: nat)
    requires EndpointList(q, pairs) && n < |pairs|
    ensures IsEndpoints(q, pairs[n])
  {
    assert pairs[n] in pairs;
  }

  /** The best candidates of one pair, none when its mode is not allowed. */
  method CandidatesOf(q: Query, window: U32, e: Endpoints, bounds: seq<Bounds>, k: nat) returns (best: seq<Candidate>)
    requires BoundsReady(q, bounds) && IsEndpoints(q, e)
    ensures best == Best(DirectsOf(q, window, e), k)
  {
    if !ModeAllowed(q, e.0) {
      NothingBest(k);
      return [];
    }
    best := CollectPair(q, window, e, bounds[e.0], k);
  }

  // ---------------------------------------------------------------- reserving and filling

  method DedupCandidates(sorted: seq<Candidate>) returns (candidates: seq<Candidate>)
    ensures candidates == Dedup(sorted)
  {
    candidates := [];
    var identities: set<Identity> := {};
    for n := 0 to |sorted|
      invariant candidates == Dedup(sorted[..n]) && identities == Identities(sorted[..n])
    {
      assert sorted[..n + 1][..n] == sorted[..n] && sorted[..n + 1] == sorted[..n] + [sorted[n]];
      LinesSnoc(sorted[..n], sorted[n]);
      if IdentityOf(sorted[n]) !in identities {
        identities := identities + {IdentityOf(sorted[n])};
        candidates := candidates + [sorted[n]];
      }
    }
    assert sorted[..|sorted|] == sorted;
  }

  ghost function ReservedBelow(xs: seq<Candidate>, k: nat, n: nat): set<nat>
    requires n <= |xs|
  {
    set i | 0 <= i < n && Reserved(xs, k, i)
  }

  lemma ReservedStep(xs: seq<Candidate>, k: nat, n: nat)
    requires n < |xs|
    ensures ReservedBelow(xs, k, n + 1) == ReservedBelow(xs, k, n) + if Reserved(xs, k, n) then {n} else {}
    ensures n !in ReservedBelow(xs, k, n)
  {
  }

  /** The places given out among the first `n` candidates, and the lines they are for. */
  ghost predicate Reserving(xs: seq<Candidate>, k: nat, n: nat, selected: set<nat>, lines: set<Id>) {
    n <= |xs| && selected == ReservedBelow(xs, k, n) && |selected| == Rank(xs, n) && lines == Lines(xs[..n])
  }

  lemma ReservingStep(xs: seq<Candidate>, k: nat, n: nat, selected: set<nat>, lines: set<Id>)
    requires n < |xs| && Reserving(xs, k, n, selected, lines) && |selected| < k
    ensures if xs[n].routeId in lines then Reserving(xs, k, n + 1, selected, lines)
            else Reserving(xs, k, n + 1, selected + {n}, lines + {xs[n].routeId})
    ensures n !in selected
  {
    hide Lines, ReservedBelow, Rank, Reserved;
    LinesNext(xs, n);
    ReservedStep(xs, k, n);
    RankNext(xs, k, n);
    assert |selected + {n}| == |selected| + 1;
    assert xs[n].routeId in lines ==> lines + {xs[n].routeId} == lines;
    assert selected + {} == selected;
  }

  lemma LinesNext(xs: seq<Candidate>, n: nat)
    requires n < |xs|
    ensures Lines(xs[..n + 1]) == Lines(xs[..n]) + {xs[n].routeId}
  {
    assert xs[..n + 1] == xs[..n] + [xs[n]];
    hide Lines;
    LinesSnoc(xs[..n], xs[n]);
  }

  lemma RankNext(xs: seq<Candidate>, k: nat, n: nat)
    requires n < |xs|
    ensures Rank(xs, n + 1) == Rank(xs, n) + if xs[n].routeId in Lines(xs[..n]) then 0 else 1
    ensures Reserved(xs, k, n) <==> xs[n].routeId !in Lines(xs[..n]) && Rank(xs, n) < k
  {
    hide Lines;
  }

  lemma EnoughReserved(xs: seq<Candidate>, k: nat, n: nat, selected: set<nat>, lines: set<Id>)
    requires Reserving(xs, k, n, selected, lines) && |selected| >= k
    ensures selected == ReservedBelow(xs, k, |xs|) && Rank(xs, n) <= Rank(xs, |xs|)
  {
    NoMoreReserved(xs, k, n);
    RankGrows(xs, n, |xs|, k);
  }

  /** One place for the first candidate of each line. */
  method ReserveLines(xs: seq<Candidate>, k: nat) returns (selected: set<nat>)
    requires k > 0
    ensures selected == ReservedBelow(xs, k, |xs|) && |selected| == Min(k, Rank(xs, |xs|))
  {
    selected := {};
    var lines: set<Id> := {};
    for n := 0 to |xs|
      invariant Reserving(xs, k, n, selected, lines) && |selected| < k
    {
      hide Reserving;
      ReservingStep(xs, k, n, selected, lines);
      if xs[n].routeId !in lines {
        lines := lines + {xs[n].routeId};
        selected := selected + {n};
        if |selected| == k {
          EnoughReserved(xs, k, n + 1, selected, lines);
          return;
        }
      }
    }
  }

  lemma NoMoreReserved(xs: seq<Candidate>, k: nat, n: nat)
    requires n <= |xs| && Rank(xs, n) >= k
    ensures ReservedBelow(xs, k, n) == ReservedBelow(xs, k, |xs|) && Rank(xs, |xs|) >= k
  {
    RankGrows(xs, n, |xs|, k);
    forall i | n <= i < |xs|
      ensures !Reserved(xs, k, i)
    {
      RankGrows(xs, n, i, k);
    }
  }

  ghost predicate SelectedAre(xs: seq<Candidate>, k: nat, selected: set<nat>) {
    forall i: nat :: i in selected <==> i < |xs| && Chosen(xs, k, i)
  }

  function Below(n: nat): (s: set<nat>)
    ensures forall i: nat :: i in s <==> i < n
  {
    if n == 0 then {} else Below(n - 1) + {n - 1}
  }

  /** Taking the next index adds one place unless it was reserved. */
  lemma FillStep(xs: seq<Candidate>, k: nat, n: nat, selected: set<nat>)
    requires n < |xs| && selected == ReservedBelow(xs, k, |xs|) + Below(n)
    ensures selected + {n} == ReservedBelow(xs, k, |xs|) + Below(n + 1)
    ensures |selected + {n}| == |selected| + if Reserved(xs, k, n) then 0 else 1
  {
    if Reserved(xs, k, n) {
      assert selected + {n} == selected;
    }
  }

  lemma FreeRankNext(xs: seq<Candidate>, k: nat, n: nat)
    requires n < |xs|
    ensures FreeRank(xs, k, n + 1) == FreeRank(xs, k, n) + if Reserved(xs, k, n) then 0 else 1
  {
  }

  /** The free places go to the candidates in front. */
  method FillPlaces(xs: seq<Candidate>, k: nat, reserved: set<nat>) returns (selected: set<nat>)
    requires reserved == ReservedBelow(xs, k, |xs|) && |reserved| == Min(k, Rank(xs, |xs|))
    ensures SelectedAre(xs, k, selected)
  {
    selected := reserved;
    NothingFilled(xs, k, reserved);
    hide Filling, SelectedAre, ReservedBelow, Rank;
    for n := 0 to |xs|
      invariant Filling(xs, k, n, selected)
    {
      if |selected| == k {
        FilledTo(xs, k, n, selected);
        return;
      }
      FillNext(xs, k, n, selected);
      selected := selected + {n};
    }
    FilledTo(xs, k, |xs|, selected);
  }

  /** The reserved places and those in front of `n` are given out, within the limit. */
  ghost predicate Filling(xs: seq<Candidate>, k: nat, n: nat, selected: set<nat>) {
    && n <= |xs| && selected == ReservedBelow(xs, k, |xs|) + Below(n)
    && |selected| == Min(k, Rank(xs, |xs|)) + FreeRank(xs, k, n) <= k
  }

  lemma NothingFilled(xs: seq<Candidate>, k: nat, reserved: set<nat>)
    requires reserved == ReservedBelow(xs, k, |xs|) && |reserved| == Min(k, Rank(xs, |xs|))
    ensures Filling(xs, k, 0, reserved)
  {
    hide ReservedBelow, Rank;
    assert reserved + Below(0) == reserved;
  }

  lemma FillNext(xs: seq<Candidate>, k: nat, n: nat, selected: set<nat>)
    requires Filling(xs, k, n, selected) && n < |xs| && |selected| != k
    ensures Filling(xs, k, n + 1, selected + {n})
  {
    hide ReservedBelow, Below, Reserved, Rank, FreeRank;
    FillStep(xs, k, n, selected);
    FreeRankNext(xs, k, n);
  }

  lemma FilledTo(xs: seq<Candidate>, k: nat, n: nat, selected: set<nat>)
    requires Filling(xs, k, n, selected) && (n == |xs| || |selected| == k)
    ensures SelectedAre(xs, k, selected)
  {
    forall i: nat | i < |xs| && !Reserved(xs, k, i)
      ensures i < n <==> FreeRank(xs, k, i) < k - Min(k, Rank(xs, |xs|))
    {
      if i < n {
        RankGrows(xs, i, n, k);
      } else {
        RankGrows(xs, n, i, k);
      }
    }
  }

  method KeepSelected(xs: seq<Candidate>, k: nat, selected: set<nat>) returns (picked: seq<Candidate>)
    requires SelectedAre(xs, k, selected)
    ensures picked == ChosenBelow(xs, k, |xs|)
  {
    picked := [];
    for n := 0 to |xs|
      invariant picked == ChosenBelow(xs, k, n)
    {
      if n in selected {
        picked := picked + [xs[n]];
      }
    }
  }

  method SelectCandidates(candidates: seq<Candidate>, k: nat) returns (picked: seq<Candidate>)
    requires k > 0
    ensures picked == Select(Dedup(Sort(candidates, CandidateOrder)), k)
  {
    var xs := DedupCandidates(Sort(candidates, CandidateOrder));
    var reserved := ReserveLines(xs, k);
    var selected := FillPlaces(xs, k, reserved);
    picked := KeepSelected(xs, k, selected);
    DedupKeeps(Sort(candidates, CandidateOrder));
    PassIsChoice(xs, |xs|, k);
    assert xs[..|xs|] == xs;
  }

  // ---------------------------------------------------------------- the whole enumeration

  /** `c` is the direct service of trip `t` on the pair `e`. */
  ghost predicate ComesFrom(q: Query, window: U32, e: Endpoints, t: nat, c: Candidate) {
    IsDirect(q, window, e.0, e.1, e.2, t) && c == CandidateOf(q, e.0, e.1, e.2, t)
  }

  lemma {:induction false} DirectsComeFrom(q: Query, window: U32, e: Endpoints, indices: seq<nat>, c: Candidate)
      returns (t: nat)
    requires c in DirectsIn(q, window, e.0, e.1, e.2, indices)
    ensures t in indices && ComesFrom(q, window, e, t, c)
  {
    var front := indices[..|indices| - 1];
    if c in DirectsIn(q, window, e.0, e.1, e.2, front) {
      t := DirectsComeFrom(q, window, e, front, c);
    } else {
      t := indices[|indices| - 1];
    }
  }

  lemma SameTrip(q: Query, window: U32, e: Endpoints, f: Endpoints, t: nat, u: nat, x: Candidate, y: Candidate)
    requires DistinctAcross(q.tt.routes)
    requires ComesFrom(q, window, e, t, x) && ComesFrom(q, window, f, u, y) && x.tripId == y.tripId
    ensures e.0 == f.0 && t == u && x.routeId == y.routeId
  {
    assert HasTrip(q.tt.routes, e.0, t) && HasTrip(q.tt.routes, f.0, u);
  }

  lemma {:induction false} DirectsArePair(q: Query, window: U32, e: Endpoints, indices: seq<nat>)
    requires ValidTimetable(q.tt) && DistinctAcross(q.tt.routes)
    requires forall m, n :: 0 <= m < n < |indices| ==> indices[m] != indices[n]
    ensures Pair(DirectsIn(q, window, e.0, e.1, e.2, indices))
  {
    hide ValidTimetable, DistinctAcross;
    if |indices| > 0 {
      var front, last := indices[..|indices| - 1], indices[|indices| - 1];
      DirectsArePair(q, window, e, front);
      var directs := DirectsIn(q, window, e.0, e.1, e.2, front);
      if IsDirect(q, window, e.0, e.1, e.2, last) {
        var c := CandidateOf(q, e.0, e.1, e.2, last);
        forall i | 0 <= i < |directs|
          ensures directs[i].tripId != c.tripId && directs[i].routeId == c.routeId
        {
          var t := DirectsComeFrom(q, window, e, front, directs[i]);
          if directs[i].tripId == c.tripId {
            SameTrip(q, window, e, e, t, last, directs[i], c);
          }
          OneRouteId(q, e.0, t, last);
        }
      }
    }
  }

  lemma OneRouteId(q: Query, r: nat, t: nat, u: nat)
    requires ValidTimetable(q.tt) && TripAllowed(q, r, t) && TripAllowed(q, r, u)
    ensures q.tt.routes[r].trips[t].routeId == q.tt.routes[r].trips[u].routeId
  {
    assert ValidRoute(q.tt, r);
  }

  lemma ListsDistinct(q: Query, r: nat, i: nat)
    requires ValidTimetable(q.tt) && r < |q.tt.routes| && i < |DepartureLists(q, r)|
    ensures var list := DepartureLists(q, r)[i]; forall m, n :: 0 <= m < n < |list| ==> list[m] != list[n]
  {
    assert ValidRoute(q.tt, r);
  }

  lemma DirectsOfPair(q: Query, window: U32, e: Endpoints)
    requires ValidTimetable(q.tt) && DistinctAcross(q.tt.routes)
    ensures Pair(DirectsOf(q, window, e))
  {
    if DirectsOf(q, window, e) != [] {
      ListsDistinct(q, e.0, e.1);
      hide ValidTimetable, DistinctAcross, Pair;
      DirectsArePair(q, window, e, DepartureLists(q, e.0)[e.1]);
    }
  }

  lemma GroupsArePairs(q: Query, window: U32, pairs: seq<Endpoints>)
    requires ValidTimetable(q.tt) && DistinctAcross(q.tt.routes)
    ensures Pairs(DirectGroups(q, window, pairs))
  {
    var groups := DirectGroups(q, window, pairs);
    forall g | g in groups
      ensures Pair(g)
    {
      var n :| 0 <= n < |groups| && groups[n] == g;
      DirectsOfPair(q, window, pairs[n]);
    }
    hide ValidTimetable, DistinctAcross, Pair, ComesFrom;
    forall g, h, x, y | g in groups && h in groups && x in g && y in h && x.tripId == y.tripId
      ensures x.routeId == y.routeId
    {
      var m :| 0 <= m < |groups| && groups[m] == g;
      var n :| 0 <= n < |groups| && groups[n] == h;
      var t := DirectsComeFrom(q, window, pairs[m], DepartureLists(q, pairs[m].0)[pairs[m].1], x);
      var u := DirectsComeFrom(q, window, pairs[n], DepartureLists(q, pairs[n].0)[pairs[n].1], y);
      SameTrip(q, window, pairs[m], pairs[n], t, u, x, y);
    }
  }

  ghost predicate InSomeGroup(groups: seq<seq<Candidate>>, c: Candidate) {
    exists g :: g in groups && c in g
  }

  lemma {:induction false} TruncatedMember(groups: seq<seq<Candidate>>, k: nat, c: Candidate)
    requires c in Truncated(groups, k)
    ensures InSomeGroup(groups, c)
  {
    assert Truncated(groups, k) == Best(groups[0], k) + Truncated(groups[1..], k);
    if c in Best(groups[0], k) {
      CandidateOrderTotal();
      SortSorts(groups[0], CandidateOrder);
      assert c in Sort(groups[0], CandidateOrder);
      assert c in multiset(groups[0]);
      assert groups[0] in groups;
    } else {
      TruncatedMember(groups[1..], k, c);
      var g :| g in groups[1..] && c in g;
      assert g in groups;
    }
  }

  lemma TruncatedOneLine(groups: seq<seq<Candidate>>, k: nat)
    requires Pairs(groups)
    ensures OneLine(Sort(Truncated(groups, k), CandidateOrder))
  {
    var xs := Truncated(groups, k);
    CandidateOrderTotal();
    SortSorts(xs, CandidateOrder);
    forall x, y | x in Sort(xs, CandidateOrder) && y in Sort(xs, CandidateOrder) && x.tripId == y.tripId
      ensures x.routeId == y.routeId
    {
      assert x in multiset(xs) && y in multiset(xs);
      TruncatedMember(groups, k, x);
      TruncatedMember(groups, k, y);
    }
  }

  /** All direct services in the window, in order. */
  ghost function AllDirects(q: Query, window: U32, pairs: seq<Endpoints>): seq<Candidate> {
    Sort(Concat(DirectGroups(q, window, pairs)), CandidateOrder)
  }

  // ---------------------------------------------------------------- the services on offer, in numbers

  /** `c` is trip `t` of route `r` from its stop `i`, an origin, to its stop `j`, a target: of an allowed mode, open to
      passengers at both, and really leaving within the window and arriving no earlier. */
  ghost predicate ServiceOn(q: Query, window: U32, r: nat, i: nat, j: nat, t: nat, c: Candidate) {
    && r < |q.tt.routes| && t < |q.tt.routes[r].trips|
    && var route := q.tt.routes[r];
       var trip := route.trips[t];
       && i < j < |route.stopIndices| && j < |trip.stopTimes|
       && route.stopIndices[i] in q.origins && route.stopIndices[j] in q.targets
       && var board, alight := trip.stopTimes[i], trip.stopTimes[j];
          && c.tripId == trip.tripId && c.routeId == trip.routeId && c.mode == trip.mode
          && c.from == board.stopId && c.to == alight.stopId
          && c.scheduledDeparture == board.departure && c.scheduledArrival == alight.arrival
          && c.departure == LegLaws.Shifted(board.departure, q.realtime.DelaySeconds(trip.tripId, board.stopId))
          && c.arrival == LegLaws.Shifted(alight.arrival, q.realtime.DelaySeconds(trip.tripId, alight.stopId))
          && board.pickup && alight.dropOff && (q.allowUnverified || trip.verified)
          && (q.modes == {} || trip.mode in q.modes)
          && q.departure <= c.departure <= q.departure + window && c.departure <= c.arrival
  }

  ghost predicate OnOffer(q: Query, window: U32, c: Candidate) {
    exists r, i, j, t :: ServiceOn(q, window, r, i, j, t, c)
  }

  ghost function Offered(q: Query, window: U32): iset<Candidate> {
    iset c | OnOffer(q, window, c)
  }

  lemma ServiceIsDirect(q: Query, window: U32, e: Endpoints, t: nat, c: Candidate)
    requires ValidTimetable(q.tt)
    ensures DirectService(q, window, e, t, c) <==> ServiceOn(q, window, e.0, e.1, e.2, t, c)
  {
    if e.0 < |q.tt.routes| {
      assert ValidRoute(q.tt, e.0);
    }
  }

  /** The list the selection is made from holds what is on offer. */
  lemma AllDirectsOffered(q: Query, window: U32, pairs: seq<Endpoints>)
    requires ValidTimetable(q.tt) && EndpointList(q, pairs)
    ensures Among(AllDirects(q, window, pairs)) == Offered(q, window)
  {
    hide AllDirects, EndpointList, DirectService, ServiceOn, ValidTimetable;
    forall c
      ensures c in AllDirects(q, window, pairs) <==> OnOffer(q, window, c)
    {
      AllDirectsExact(q, window, pairs, c);
      if e: Endpoints, t: nat :| DirectService(q, window, e, t, c) {
        ServiceIsDirect(q, window, e, t, c);
        assert ServiceOn(q, window, e.0, e.1, e.2, t, c);
      }
      if r, i, j, t :| ServiceOn(q, window, r, i, j, t, c) {
        var e: Endpoints := (r, i, j);
        ServiceIsDirect(q, window, e, t, c);
      }
    }
  }

  lemma DirectsPickedWell(q: Query, window: U32, pairs: seq<Endpoints>, k: nat)
    requires ValidTimetable(q.tt) && DistinctAcross(q.tt.routes) && EndpointList(q, pairs)
    ensures PickedWell(Offered(q, window), k, if k == 0 then [] else Select(AllDirects(q, window, pairs), k))
  {
    hide ValidTimetable, DistinctAcross, EndpointList, Select, Offered, PickedWell;
    if k == 0 {
      NothingPicked(Offered(q, window));
    } else {
      AllDirectsOneLine(q, window, pairs);
      AllDirectsOffered(q, window, pairs);
      CandidateOrderTotal();
      SortSorts(Concat(DirectGroups(q, window, pairs)), CandidateOrder);
      SelectPicksWell(AllDirects(q, window, pairs), k);
    }
  }

  lemma NothingPicked(offered: iset<Candidate>)
    ensures PickedWell(offered, 0, [])
  {
  }

  /** `direct_journeys`: with unique trip identifiers, the bounded collection returns what the same selection would
      return from all direct services at once. */
  method DirectServices(q: Query, window: U32, k: nat) returns (picked: seq<Candidate>)
    requires ValidQuery(q) && DistinctAcross(q.tt.routes)
    ensures forall pairs :: EndpointList(q, pairs) ==>
              picked == if k == 0 then [] else Select(AllDirects(q, window, pairs), k)
    ensures PickedWell(Offered(q, window), k, picked)
  {
    ValidQueryStopRoutesExact(q);
    if k == 0 {
      NothingPicked(Offered(q, window));
      return [];
    }
    var bounds := DelayBoundsByRoute(q.realtime, q.tt);
    RouteBoundsHold(q.realtime, q.tt, bounds);
    ValidQueryBoundsReady(q, bounds);
    var list := EndpointPairs(q);
    var candidates := CollectCandidates(q, window, list, bounds, k);
    picked := SelectCandidates(candidates, k);
    GroupsArePairs(q, window, list);
    DirectsPickedWell(q, window, list, k);
    hide ValidQuery, BoundsReady, BoundsHold, DistinctAcross, Pairs, EndpointList, PickedWell, Offered;
    TruncatedOneLine(DirectGroups(q, window, list), k);
    SelectDedup(Sort(candidates, CandidateOrder), k);
    TruncationHarmless(DirectGroups(q, window, list), k);
    forall pairs | EndpointList(q, pairs)
      ensures pairs == list
    {
      OneEndpointList(q, pairs, list);
    }
  }

  /** The endpoint pairs have only one order. */
  lemma OneEndpointList(q: Query, xs: seq<Endpoints>, ys: seq<Endpoints>)
    requires EndpointList(q, xs) && EndpointList(q, ys)
    ensures xs == ys
  {
    EndpointOrderTotal();
    SameMembersOnce(xs, ys);
    SortedUnique(xs, ys, EndpointOrder);
  }

  lemma SameMembersOnce(xs: seq<Endpoints>, ys: seq<Endpoints>)
    requires (forall e :: e in xs <==> e in ys)
    requires (forall a, b :: 0 <= a < b < |xs| ==> xs[a] != xs[b]) && (forall a, b :: 0 <= a < b < |ys| ==> ys[a] != ys[b])
    ensures multiset(xs) == multiset(ys)
  {
    forall e
      ensures multiset(xs)[e] == multiset(ys)[e]
    {
      OnceEach(xs, e);
      OnceEach(ys, e);
      assert e in xs <==> multiset(xs)[e] > 0;
      assert e in ys <==> multiset(ys)[e] > 0;
    }
  }

  // ---------------------------------------------------------------- what the answer covers

  /** `c` is a direct service between the requested endpoints on a line of an allowed mode. */
  ghost predicate DirectService(q: Query, window: U32, e: Endpoints, t: nat, c: Candidate) {
    IsEndpoints(q, e) && ModeAllowed(q, e.0) && ComesFrom(q, window, e, t, c)
  }

  lemma {:induction false} ListedDirects(q: Query, window: U32, e: Endpoints, indices: seq<nat>, t: nat, c: Candidate)
    requires t in indices && ComesFrom(q, window, e, t, c)
    ensures c in DirectsIn(q, window, e.0, e.1, e.2, indices)
  {
    var front := indices[..|indices| - 1];
    if t in front {
      ListedDirects(q, window, e, front, t, c);
    }
  }

  lemma {:induction false} ConcatMember(groups: seq<seq<Candidate>>, c: Candidate)
    ensures c in Concat(groups) <==> InSomeGroup(groups, c)
  {
    if |groups| > 0 {
      ConcatMember(groups[1..], c);
      assert groups == [groups[0]] + groups[1..];
      assert InSomeGroup(groups, c) <==> c in groups[0] || InSomeGroup(groups[1..], c);
    }
  }

  /** The untruncated answer holds the direct services and nothing else. */
  lemma AllDirectsExact(q: Query, window: U32, pairs: seq<Endpoints>, c: Candidate)
    requires ValidTimetable(q.tt) && EndpointList(q, pairs)
    ensures c in AllDirects(q, window, pairs) <==> exists e, t :: DirectService(q, window, e, t, c)
  {
    var groups := DirectGroups(q, window, pairs);
    CandidateOrderTotal();
    SortSorts(Concat(groups), CandidateOrder);
    assert c in AllDirects(q, window, pairs) <==> c in multiset(Concat(groups));
    ConcatMember(groups, c);
    hide ValidTimetable, CandidateOrder, Sort, Concat, EndpointList, AllDirects;
    if InSomeGroup(groups, c) {
      var e, t := ServiceOfGroup(q, window, pairs, c);
    }
    forall e: Endpoints, t: nat | DirectService(q, window, e, t, c)
      ensures InSomeGroup(groups, c)
    {
      GroupOfService(q, window, pairs, e, t, c);
    }
  }

  lemma ServiceOfGroup(q: Query, window: U32, pairs: seq<Endpoints>, c: Candidate) returns (e: Endpoints, t: nat)
    requires EndpointList(q, pairs) && InSomeGroup(DirectGroups(q, window, pairs), c)
    ensures DirectService(q, window, e, t, c)
  {
    var groups := DirectGroups(q, window, pairs);
    var g :| g in groups && c in g;
    var n :| 0 <= n < |groups| && groups[n] == g;
    e := pairs[n];
    assert e in pairs;
    t := DirectsComeFrom(q, window, e, DepartureLists(q, e.0)[e.1], c);
  }

  lemma GroupOfService(q: Query, window: U32, pairs: seq<Endpoints>, e: Endpoints, t: nat, c: Candidate)
    requires ValidTimetable(q.tt) && EndpointList(q, pairs) && DirectService(q, window, e, t, c)
    ensures InSomeGroup(DirectGroups(q, window, pairs), c)
  {
    var groups := DirectGroups(q, window, pairs);
    AllowedTripListed(q, e.0, e.1, t);
    hide ValidTimetable;
    ListedDirects(q, window, e, DepartureLists(q, e.0)[e.1], t, c);
    var n :| 0 <= n < |pairs| && pairs[n] == e;
    assert groups[n] in groups;
  }

  lemma AllowedTripListed(q: Query, r: nat, i: nat, t: nat)
    requires ValidTimetable(q.tt) && TripAllowed(q, r, t) && i < |q.tt.routes[r].stopIndices|
    ensures i < |DepartureLists(q, r)| && t in DepartureLists(q, r)[i]
  {
    assert ValidRoute(q.tt, r);
  }

  lemma AllDirectsOneLine(q: Query, window: U32, pairs: seq<Endpoints>)
    requires ValidTimetable(q.tt) && DistinctAcross(q.tt.routes)
    ensures OneLine(AllDirects(q, window, pairs))
  {
    var groups := DirectGroups(q, window, pairs);
    GroupsArePairs(q, window, pairs);
    CandidateOrderTotal();
    SortSorts(Concat(groups), CandidateOrder);
    hide ValidTimetable, DistinctAcross, CandidateOrder, Sort, Concat;
    forall x, y | x in AllDirects(q, window, pairs) && y in AllDirects(q, window, pairs) && x.tripId == y.tripId
      ensures x.routeId == y.routeId
    {
      assert x in multiset(Concat(groups)) && y in multiset(Concat(groups));
      ConcatMember(groups, x);
      ConcatMember(groups, y);
    }
  }

  /** The answer is as long and covers as many lines as the limit allows, and represents every line it covers by the
      first of all direct services of that line. */
  lemma DirectServicesCoverLines(q: Query, window: U32, pairs: seq<Endpoints>, k: nat)
    requires ValidTimetable(q.tt) && DistinctAcross(q.tt.routes)
    ensures var all := AllDirects(q, window, pairs);
            var picked := Select(all, k);
            && |picked| == Min(k, |Identities(all)|)
            && |Lines(picked)| == Min(k, |Lines(all)|)
            && forall line :: line in Lines(picked) ==> Represented(all, picked, line)
  {
    AllDirectsOneLine(q, window, pairs);
    SelectionCoversLines(AllDirects(q, window, pairs), k);
  }
}
