/** `RaptorTimetable::new`: from trips and transfers to the indexed timetable. */
module TimetableBuilder {
  import opened Machine
  import opened Sorting
  import opened Network
  import opened Partition
  import opened RouteBuilding
  import opened Grouping

  // ---------------------------------------------------------------- routes

  function MapRoutes(chains: seq<seq<Trip>>, index: map<Id, nat>): seq<Route> {
    if |chains| == 0 then []
    else MapRoutes(chains[..|chains| - 1], index) + [MakeRoute(chains[|chains| - 1], index)]
  }

  /** Partition order: by line, then by the first trip. */
  predicate RouteOrder(x: Route, y: Route) {
    |x.trips| == 0
    || (|y.trips| > 0
        && (x.trips[0].routeId < y.trips[0].routeId
            || (x.trips[0].routeId == y.trips[0].routeId && x.trips[0].tripId <= y.trips[0].tripId)))
  }

  ghost predicate GoodRoute(route: Route, stops: seq<Id>) {
    RouteOfChain(route, route.trips, stops)
  }

  /** All trips of some routes, each as often as it occurs. */
  ghost function AllTrips(routes: seq<Route>): multiset<Trip> {
    if |routes| == 0 then multiset{}
    else AllTrips(routes[..|routes| - 1]) + multiset(routes[|routes| - 1].trips)
  }

  lemma {:induction false} AllTripsAppend(xs: seq<Route>, ys: seq<Route>)
    ensures AllTrips(xs + ys) == AllTrips(xs) + AllTrips(ys)
  {
    if |ys| == 0 {
      assert xs + ys == xs;
    } else {
      assert (xs + ys)[..|xs + ys| - 1] == xs + ys[..|ys| - 1];
      AllTripsAppend(xs, ys[..|ys| - 1]);
    }
  }

  lemma AllTripsOne(x: Route)
    ensures AllTrips([x]) == multiset(x.trips)
  {
    assert [x][..0] == [];
  }

  lemma AllTripsRemove(xs: seq<Route>, i: nat)
    requires i < |xs|
    ensures AllTrips(xs) == AllTrips(xs[..i] + xs[i + 1..]) + multiset(xs[i].trips)
  {
    hide AllTrips;
    var front, one, back := xs[..i], [xs[i]], xs[i + 1..];
    assert front + (one + back) == xs;
    AllTripsOne(xs[i]);
    AllTripsAround(front, one, back);
  }

  lemma AllTripsAround(xs: seq<Route>, ys: seq<Route>, zs: seq<Route>)
    ensures AllTrips(xs + (ys + zs)) == AllTrips(xs + zs) + AllTrips(ys)
  {
    hide AllTrips;
    AllTripsAppend(xs, ys + zs);
    AllTripsAppend(ys, zs);
    AllTripsAppend(xs, zs);
  }

  /** Reordering routes conserves their trips. */
  lemma {:induction false} AllTripsPermuted(xs: seq<Route>, ys: seq<Route>)
    requires multiset(xs) == multiset(ys)
    ensures AllTrips(xs) == AllTrips(ys)
  {
    assert |xs| == |multiset(xs)| == |multiset(ys)| == |ys|;
    if |xs| > 0 {
      hide AllTrips;
      var last := |xs| - 1;
      var i := Elsewhere(xs, last, ys);
      AllTripsPermuted(xs[..last] + xs[last + 1..], ys[..i] + ys[i + 1..]);
      AllTripsRemove(xs, last);
      AllTripsRemove(ys, i);
    }
  }

  /** The routes of one group: well formed, and holding the group's trips. */
  lemma {:induction false} GroupRoutes(chains: seq<seq<Trip>>, n: nat, stops: seq<Id>, index: map<Id, nat>)
    requires Indexed(stops, index)
    requires forall c :: c in chains ==> |c| > 0 && Chain(c) && SameLength(c, n) && SamePattern(c)
    requires forall c, t, i :: c in chains && t in c && 0 <= i < |t.stopTimes| ==> t.stopTimes[i].stopId in index
    ensures forall r :: r in MapRoutes(chains, index) ==> GoodRoute(r, stops)
    ensures AllTrips(MapRoutes(chains, index)) == multiset(Flat(chains))
  {
    if |chains| > 0 {
      var front := chains[..|chains| - 1];
      var last := chains[|chains| - 1];
      assert last in chains && forall c :: c in front ==> c in chains;
      GroupRoutes(front, n, stops, index);
      ChainRoute(last, n, stops, index);
      var routes := MapRoutes(chains, index);
      assert routes[..|routes| - 1] == MapRoutes(front, index);
    }
  }

  lemma {:induction false} FlatMembers(chains: seq<seq<Trip>>)
    ensures forall c, t :: c in chains && t in c ==> t in Flat(chains)
  {
    if |chains| > 0 {
      FlatMembers(chains[..|chains| - 1]);
      assert forall c :: c in chains ==> c in chains[..|chains| - 1] || c == chains[|chains| - 1];
    }
  }

  lemma OneGroup(group: seq<Trip>, n: nat, stops: seq<Id>, index: map<Id, nat>)
    requires Indexed(stops, index) && SameLength(group, n) && |group| > 0 && SamePattern(group)
    requires forall t, i :: t in group && 0 <= i < |t.stopTimes| ==> t.stopTimes[i].stopId in index
    ensures forall r :: r in MapRoutes(Chains(group), index) ==> GoodRoute(r, stops)
    ensures AllTrips(MapRoutes(Chains(group), index)) == multiset(group)
  {
    ChainsCorrect(group, n);
    var chains := Chains(group);
    FlatMembers(chains);
    forall c, t | c in chains && t in c
      ensures t in group
    {
      assert t in multiset(Flat(chains));
    }
    GroupRoutes(chains, n, stops, index);
  }

  /** The routes that the groups of some patterns give, whatever the order the groups come in. */
  ghost function RoutesOf(trips: seq<Trip>, patterns: set<Pattern>, index: map<Id, nat>): multiset<Route> {
    if patterns == {} then multiset{}
    else
      var p :| p in patterns;
      RoutesOfPattern(trips, p, index) + RoutesOf(trips, patterns - {p}, index)
  }

  ghost function RoutesOfPattern(trips: seq<Trip>, p: Pattern, index: map<Id, nat>): multiset<Route> {
    multiset(MapRoutes(Chains(TripsOf(trips, {p})), index))
  }

  lemma {:induction false} RoutesOfMore(trips: seq<Trip>, patterns: set<Pattern>, p: Pattern, index: map<Id, nat>)
    requires p in patterns
    ensures RoutesOf(trips, patterns, index)
         == RoutesOfPattern(trips, p, index) + RoutesOf(trips, patterns - {p}, index)
    decreases patterns
  {
    var first :| first in patterns
      && RoutesOf(trips, patterns, index)
         == RoutesOfPattern(trips, first, index) + RoutesOf(trips, patterns - {first}, index);
    hide RoutesOfPattern, RoutesOf;
    if first != p {
      assert patterns - {first} - {p} == patterns - {p} - {first};
      RoutesOfMore(trips, patterns - {first}, p, index);
      RoutesOfMore(trips, patterns - {p}, first, index);
    }
  }

  /** What the input must provide: every trip stops somewhere, and every stop named has an index. */
  ghost predicate Usable(trips: seq<Trip>, stops: seq<Id>, index: map<Id, nat>) {
    && Indexed(stops, index)
    && (forall t :: t in trips ==> |t.stopTimes| > 0)
    && (forall t, i :: t in trips && 0 <= i < |t.stopTimes| ==> t.stopTimes[i].stopId in index)
  }

  lemma PatternGroup(trips: seq<Trip>, p: Pattern, stops: seq<Id>, index: map<Id, nat>)
    requires Usable(trips, stops, index) && |TripsOf(trips, {p})| > 0
    ensures forall r :: r in MapRoutes(Chains(TripsOf(trips, {p})), index) ==> GoodRoute(r, stops)
    ensures AllTrips(MapRoutes(Chains(TripsOf(trips, {p})), index)) == multiset(TripsOf(trips, {p}))
  {
    GroupIsPattern(trips, p);
    TripsOfMembers(trips, {p});
    assert TripsOf(trips, {p})[0] in TripsOf(trips, {p});
    OneGroup(TripsOf(trips, {p}), |p.stops|, stops, index);
  }

  /** The groups, in whatever order the hash map yields them. */
  method BuildRoutes(groups: map<Pattern, seq<Trip>>, ghost trips: seq<Trip>, ghost stops: seq<Id>,
                     index: map<Id, nat>) returns (routes: seq<Route>)
    requires Grouped(groups, trips) && Usable(trips, stops, index)
    ensures forall r :: r in routes ==> GoodRoute(r, stops)
    ensures AllTrips(routes) == multiset(trips)
    ensures multiset(routes) == RoutesOf(trips, groups.Keys, index)
  {
    routes := [];
    var todo := groups.Keys;
    ghost var done: set<Pattern> := {};
    NothingBuilt(trips, stops, index);
    hide Built, Grouped, Usable;
    while todo != {}
      invariant done !! todo && done + todo == groups.Keys
      invariant Built(trips, done, stops, index, routes)
      decreases todo
    {
      ghost var some := SomeElement(todo);
      var p :| p in todo;
      todo := todo - {p};
      var chains := PartitionNonOvertakingTrips(groups[p]);
      GroupOf(groups, trips, p);
      BuildStep(trips, done, stops, index, routes, p);
      routes := routes + MapRoutes(chains, index);
      done := done + {p};
    }
    assert done == groups.Keys;
    AllBuilt(groups, trips, stops, index, routes);
  }

  lemma GroupOf(groups: map<Pattern, seq<Trip>>, trips: seq<Trip>, p: Pattern)
    requires Grouped(groups, trips) && p in groups
    ensures groups[p] == TripsOf(trips, {p}) && |groups[p]| > 0
  {
  }

  /** The routes of the patterns in `done`. */
  ghost predicate Built(trips: seq<Trip>, done: set<Pattern>, stops: seq<Id>, index: map<Id, nat>, routes: seq<Route>) {
    && (forall r :: r in routes ==> GoodRoute(r, stops))
    && AllTrips(routes) == multiset(TripsOf(trips, done))
    && multiset(routes) == RoutesOf(trips, done, index)
  }

  lemma {:induction false} NothingBuilt(trips: seq<Trip>, stops: seq<Id>, index: map<Id, nat>)
    ensures Built(trips, {}, stops, index, [])
  {
    if |trips| > 0 {
      NothingBuilt(trips[..|trips| - 1], stops, index);
    }
  }

  lemma BuildStep(trips: seq<Trip>, done: set<Pattern>, stops: seq<Id>, index: map<Id, nat>, routes: seq<Route>,
                  p: Pattern)
    requires Usable(trips, stops, index) && Built(trips, done, stops, index, routes)
    requires p !in done && |TripsOf(trips, {p})| > 0
    ensures Built(trips, done + {p}, stops, index, routes + MapRoutes(Chains(TripsOf(trips, {p})), index))
  {
    PatternGroup(trips, p, stops, index);
    TripsOfMore(trips, done, p);
    RoutesOfMore(trips, done + {p}, p, index);
    assert done + {p} - {p} == done;
    hide Built, Usable, Chains, MapRoutes, TripsOf, AllTrips, RoutesOf, GoodRoute;
    BuiltAppend(trips, done, done + {p}, stops, index, routes, MapRoutes(Chains(TripsOf(trips, {p})), index));
  }

  lemma BuiltAppend(trips: seq<Trip>, done: set<Pattern>, more: set<Pattern>, stops: seq<Id>, index: map<Id, nat>,
                    routes: seq<Route>, made: seq<Route>)
    requires Built(trips, done, stops, index, routes)
    requires forall r :: r in made ==> GoodRoute(r, stops)
    requires multiset(TripsOf(trips, more)) == multiset(TripsOf(trips, done)) + AllTrips(made)
    requires RoutesOf(trips, more, index) == multiset(made) + RoutesOf(trips, done, index)
    ensures Built(trips, more, stops, index, routes + made)
  {
    hide GoodRoute, TripsOf, RoutesOf;
    AllTripsAppend(routes, made);
  }

  lemma AllBuilt(groups: map<Pattern, seq<Trip>>, trips: seq<Trip>, stops: seq<Id>, index: map<Id, nat>,
                 routes: seq<Route>)
    requires Grouped(groups, trips) && Built(trips, groups.Keys, stops, index, routes)
    ensures forall r :: r in routes ==> GoodRoute(r, stops)
    ensures AllTrips(routes) == multiset(trips)
    ensures multiset(routes) == RoutesOf(trips, groups.Keys, index)
  {
    TripsOfAll(trips, groups.Keys);
  }

  // ---------------------------------------------------------------- the other indices

  predicate HasTrip(routes: seq<Route>, r: nat, t: nat) {
    r < |routes| && t < |routes[r].trips|
  }

  /** Trips at different places have different identifiers. */
  ghost predicate DistinctAcross(routes: seq<Route>) {
    forall r: nat, t: nat, r': nat, t': nat :: HasTrip(routes, r, t) && HasTrip(routes, r', t') && (r != r' || t != t') ==>
      routes[r].trips[t].tripId != routes[r'].trips[t'].tripId
  }

  lemma {:induction false} TripsInRoute(routes: seq<Route>, r: nat)
    requires r < |routes|
    ensures multiset(routes[r].trips) <= AllTrips(routes)
  {
    if r < |routes| - 1 {
      TripsInRoute(routes[..|routes| - 1], r);
    }
  }

  lemma TripsInTwoRoutes(routes: seq<Route>, r: nat, s: nat, t: Trip)
    requires r < s < |routes| && t in routes[r].trips && t in routes[s].trips
    ensures AllTrips(routes)[t] >= 2
  {
    AllTripsRemove(routes, s);
    var rest := routes[..s] + routes[s + 1..];
    assert rest[r] == routes[r];
    TripsInRoute(rest, r);
    assert t in multiset(routes[r].trips) && t in multiset(routes[s].trips);
  }

  lemma SameIdSameTrip(trips: seq<Trip>, x: Trip, y: Trip)
    requires UniqueIds(trips) && x in trips && y in trips && x.tripId == y.tripId
    ensures x == y
  {
    var i :| 0 <= i < |trips| && trips[i] == x;
    var j :| 0 <= j < |trips| && trips[j] == y;
    assert i == j;
  }

  lemma ConservedAreDistinct(trips: seq<Trip>, routes: seq<Route>)
    requires UniqueIds(trips) && AllTrips(routes) == multiset(trips)
    ensures DistinctAcross(routes)
  {
    forall r: nat, t: nat, r': nat, t': nat | HasTrip(routes, r, t) && HasTrip(routes, r', t') && (r != r' || t != t')
      ensures routes[r].trips[t].tripId != routes[r'].trips[t'].tripId
    {
      var x, y := routes[r].trips[t], routes[r'].trips[t'];
      TripsInRoute(routes, r);
      TripsInRoute(routes, r');
      assert x in multiset(routes[r].trips) && y in multiset(routes[r'].trips);
      assert x in trips && y in trips;
      if x.tripId == y.tripId {
        SameIdSameTrip(trips, x, y);
        OnceEach(trips, x);
        if r < r' {
          TripsInTwoRoutes(routes, r, r', x);
        } else if r' < r {
          TripsInTwoRoutes(routes, r', r, x);
        } else {
          OccursTwice(routes[r].trips, Min(t, t'), Max(t, t'));
        }
        assert false;
      }
    }
  }

  /** Identifiers of the trips seen so far lead to their routes: all of the first `r` routes and `t` trips of the next. */
  ghost predicate Mapped(routes: seq<Route>, tripRoute: map<Id, nat>, r: nat, t: nat) {
    && (forall id :: id in tripRoute ==> tripRoute[id] < |routes|)
    && (forall a: nat, b: nat :: a < |routes| && b < |routes[a].trips| && VisitBefore((a, b), r, t) ==>
          routes[a].trips[b].tripId in tripRoute && tripRoute[routes[a].trips[b].tripId] == a)
  }

  method MapTrips(routes: seq<Route>) returns (tripRoute: map<Id, nat>)
    requires DistinctAcross(routes)
    ensures Mapped(routes, tripRoute, |routes|, 0)
  {
    tripRoute := map[];
    for r := 0 to |routes|
      invariant Mapped(routes, tripRoute, r, 0)
    {
      for t := 0 to |routes[r].trips|
        invariant Mapped(routes, tripRoute, r, t)
      {
        MapTrip(routes, tripRoute, r, t);
        tripRoute := tripRoute[routes[r].trips[t].tripId := r];
      }
    }
  }

  lemma MapTrip(routes: seq<Route>, tripRoute: map<Id, nat>, r: nat, t: nat)
    requires DistinctAcross(routes) && HasTrip(routes, r, t) && Mapped(routes, tripRoute, r, t)
    ensures Mapped(routes, tripRoute[routes[r].trips[t].tripId := r], r, t + 1)
  {
    forall a: nat, b: nat | a < |routes| && b < |routes[a].trips| && VisitBefore((a, b), r, t + 1)
      ensures var id := routes[a].trips[b].tripId;
              id in tripRoute[routes[r].trips[t].tripId := r] && tripRoute[routes[r].trips[t].tripId := r][id] == a
    {
      if a != r || b != t {
        assert HasTrip(routes, a, b) && VisitBefore((a, b), r, t);
      }
    }
  }

  predicate VisitAt(routes: seq<Route>, e: (nat, nat), s: nat) {
    e.0 < |routes| && e.1 < |routes[e.0].stopIndices| && routes[e.0].stopIndices[e.1] == s
  }

  /** Comes before visit `i` of route `r`. */
  predicate VisitBefore(e: (nat, nat), r: nat, i: nat) {
    e.0 < r || (e.0 == r && e.1 < i)
  }

  /** The visits found so far, each under its stop: all of the first `r` routes and `i` positions of the next. */
  ghost predicate VisitsListed(routes: seq<Route>, stopRoutes: seq<seq<(nat, nat)>>, r: nat, i: nat) {
    && (forall s, e :: 0 <= s < |stopRoutes| && e in stopRoutes[s] ==> VisitAt(routes, e, s))
    && (forall s, e :: 0 <= s < |stopRoutes| && VisitAt(routes, e, s) && VisitBefore(e, r, i) ==> e in stopRoutes[s])
  }

  method ListVisits(routes: seq<Route>, stopCount: nat) returns (stopRoutes: seq<seq<(nat, nat)>>)
    requires forall r, i :: 0 <= r < |routes| && 0 <= i < |routes[r].stopIndices| ==>
               routes[r].stopIndices[i] < stopCount
    ensures |stopRoutes| == stopCount && VisitsListed(routes, stopRoutes, |routes|, 0)
  {
    stopRoutes := seq(stopCount, _ => []);
    for r := 0 to |routes|
      invariant |stopRoutes| == stopCount && VisitsListed(routes, stopRoutes, r, 0)
    {
      for i := 0 to |routes[r].stopIndices|
        invariant |stopRoutes| == stopCount && VisitsListed(routes, stopRoutes, r, i)
      {
        var s := routes[r].stopIndices[i];
        AddVisit(routes, stopRoutes, r, i);
        stopRoutes := stopRoutes[s := stopRoutes[s] + [(r, i)]];
      }
    }
  }

  lemma AddVisit(routes: seq<Route>, stopRoutes: seq<seq<(nat, nat)>>, r: nat, i: nat)
    requires r < |routes| && i < |routes[r].stopIndices| && routes[r].stopIndices[i] < |stopRoutes|
    requires VisitsListed(routes, stopRoutes, r, i)
    ensures var s := routes[r].stopIndices[i];
            VisitsListed(routes, stopRoutes[s := stopRoutes[s] + [(r, i)]], r, i + 1)
  {
    var s := routes[r].stopIndices[i];
    var visit: (nat, nat) := (r, i);
    var after := stopRoutes[s := stopRoutes[s] + [visit]];
    assert VisitAt(routes, visit, s) && visit in after[s];
    forall x: nat, e: (nat, nat) | x < |after| && e in after[x]
      ensures VisitAt(routes, e, x)
    {
      assert e in stopRoutes[x] || (x == s && e == visit);
    }
    forall x: nat, e: (nat, nat) | x < |after| && VisitAt(routes, e, x) && VisitBefore(e, r, i + 1)
      ensures e in after[x]
    {
      assert e == visit || (VisitBefore(e, r, i) && e in stopRoutes[x]);
    }
  }

  // ---------------------------------------------------------------- transfers

  predicate IsWalk(t: Transfer, index: map<Id, nat>, s: nat) {
    t.from in index && t.to in index && index[t.from] == s && index[t.to] != s
  }

  predicate IsChange(t: Transfer, index: map<Id, nat>, s: nat) {
    t.from in index && t.to in index && index[t.from] == s && index[t.to] == s
  }

  /** The walking links that leave stop `s`, in order. */
  function LinksFrom(transfers: seq<Transfer>, index: map<Id, nat>, s: nat): (links: seq<Link>)
    ensures forall l :: l in links ==> l.to != s && exists t :: t in transfers && t.to in index && index[t.to] == l.to
  {
    if |transfers| == 0 then []
    else
      var front := LinksFrom(transfers[..|transfers| - 1], index, s);
      var t := transfers[|transfers| - 1];
      assert t in transfers;
      if IsWalk(t, index, s) then front + [Link(index[t.to], t.seconds)] else front
  }

  /** The official change time of stop `s`: the smallest one given. */
  function ChangeAt(transfers: seq<Transfer>, index: map<Id, nat>, s: nat): Option<U32> {
    if |transfers| == 0 then None
    else
      var known := ChangeAt(transfers[..|transfers| - 1], index, s);
      var t := transfers[|transfers| - 1];
      if !IsChange(t, index, s) then known
      else if known.None? || t.seconds < known.value then Some(t.seconds)
      else known
  }

  method IndexTransfers(transfers: seq<Transfer>, index: map<Id, nat>, stopCount: nat)
      returns (links: seq<seq<Link>>, minChange: seq<Option<U32>>)
    requires forall id :: id in index ==> index[id] < stopCount
    ensures |links| == |minChange| == stopCount
    ensures forall s :: 0 <= s < stopCount ==>
              links[s] == LinksFrom(transfers, index, s) && minChange[s] == ChangeAt(transfers, index, s)
  {
    links, minChange := seq(stopCount, _ => []), seq(stopCount, _ => None);
    for n := 0 to |transfers|
      invariant |links| == |minChange| == stopCount
      invariant forall s :: 0 <= s < stopCount ==>
                  links[s] == LinksFrom(transfers[..n], index, s) && minChange[s] == ChangeAt(transfers[..n], index, s)
    {
      var t := transfers[n];
      assert transfers[..n + 1][..n] == transfers[..n];
      if t.from in index && t.to in index {
        var from, to := index[t.from], index[t.to];
        if from == to {
          minChange := minChange[
            from := if minChange[from].None? then Some(t.seconds)
                    else Some(Min(minChange[from].value, t.seconds))];
        } else {
          links := links[from := links[from] + [Link(to, t.seconds)]];
        }
      }
    }
    assert transfers[..|transfers|] == transfers;
  }

  // ---------------------------------------------------------------- the whole timetable

  /** What the built timetable is: stops numbered by first mention; well-formed routes that hold exactly the given
      trips, in the canonical order; every index exact. */
  ghost predicate BuiltFrom(tt: Timetable, trips: seq<Trip>, transfers: seq<Transfer>, index: map<Id, nat>) {
    && tt.stops == FirstMentions(TripStopIds(trips) + TransferStopIds(transfers))
    && Indexed(tt.stops, index)
    && (forall r :: 0 <= r < |tt.routes| ==> GoodRoute(tt.routes[r], tt.stops))
    && AllTrips(tt.routes) == multiset(trips)
    && SortedBy(tt.routes, RouteOrder)
    && multiset(tt.routes) == RoutesOf(trips, set t | t in trips :: PatternOf(t), index)
    && |tt.stopRoutes| == |tt.links| == |tt.minChange| == |tt.stops|
    && VisitsListed(tt.routes, tt.stopRoutes, |tt.routes|, 0)
    && Mapped(tt.routes, tt.tripRoute, |tt.routes|, 0)
    && (forall s :: 0 <= s < |tt.stops| ==>
          tt.links[s] == LinksFrom(transfers, index, s) && tt.minChange[s] == ChangeAt(transfers, index, s))
  }

  lemma RouteOrderTotal()
    ensures TotalPreorder(RouteOrder)
  {
  }

  method NewTimetable(trips: seq<Trip>, transfers: seq<Transfer>) returns (tt: Timetable, index: map<Id, nat>)
    requires UniqueIds(trips)
    requires forall t :: t in trips ==> |t.stopTimes| > 0
    ensures BuiltFrom(tt, trips, transfers, index)
  {
    var ids := TripStopIds(trips) + TransferStopIds(transfers);
    var stops, stopIndices := IndexStops(ids);
    index := stopIndices;
    TripStopsMentioned(trips);
    assert Usable(trips, stops, stopIndices);
    hide Usable, UniqueIds, GoodRoute, VisitsListed, Mapped, RoutesOf, AllTrips;
    var groups := GroupByPattern(trips);
    var unsorted := BuildRoutes(groups, trips, stops, stopIndices);
    GroupKeys(groups, trips);
    var routes := Sort(unsorted, RouteOrder);
    RouteOrderTotal();
    SortSorts(unsorted, RouteOrder);
    AllTripsPermuted(unsorted, routes);
    ConservedAreDistinct(trips, routes);
    SortedStayGood(unsorted, routes, stops);
    var tripRoute := MapTrips(routes);
    GoodRoutesInRange(routes, stops);
    var stopRoutes := ListVisits(routes, |stops|);
    var links, minChange := IndexTransfers(transfers, stopIndices, |stops|);
    tt := Timetable(stops, routes, stopRoutes, links, minChange, tripRoute);
  }

  lemma GroupKeys(groups: map<Pattern, seq<Trip>>, trips: seq<Trip>)
    requires Grouped(groups, trips)
    ensures groups.Keys == set t | t in trips :: PatternOf(t)
  {
    forall p | p in groups
      ensures exists t :: t in trips && PatternOf(t) == p
    {
      TripsOfMembers(trips, {p});
      assert groups[p][0] in TripsOf(trips, {p});
    }
  }

  lemma SortedStayGood(unsorted: seq<Route>, routes: seq<Route>, stops: seq<Id>)
    requires multiset(unsorted) == multiset(routes)
    requires forall r :: r in unsorted ==> GoodRoute(r, stops)
    ensures forall r :: 0 <= r < |routes| ==> GoodRoute(routes[r], stops)
  {
    forall r | 0 <= r < |routes|
      ensures GoodRoute(routes[r], stops)
    {
      assert routes[r] in multiset(routes);
      assert routes[r] in unsorted;
    }
  }

  lemma GoodRoutesInRange(routes: seq<Route>, stops: seq<Id>)
    requires forall r :: 0 <= r < |routes| ==> GoodRoute(routes[r], stops)
    ensures forall r, i :: 0 <= r < |routes| && 0 <= i < |routes[r].stopIndices| ==>
              routes[r].stopIndices[i] < |stops|
  {
    forall r, i | 0 <= r < |routes| && 0 <= i < |routes[r].stopIndices|
      ensures routes[r].stopIndices[i] < |stops|
    {
      assert GoodRoute(routes[r], stops);
    }
  }

  /** A built timetable is one the search accepts. */
  lemma GoodRoutesAreValid(tt: Timetable)
    requires forall r :: 0 <= r < |tt.routes| ==> GoodRoute(tt.routes[r], tt.stops)
    ensures forall r :: 0 <= r < |tt.routes| ==> ValidRoute(tt, r)
  {
    forall r | 0 <= r < |tt.routes|
      ensures ValidRoute(tt, r)
    {
      assert GoodRoute(tt.routes[r], tt.stops);
    }
  }

  lemma BuiltIsValid(tt: Timetable, trips: seq<Trip>, transfers: seq<Transfer>, index: map<Id, nat>)
    requires BuiltFrom(tt, trips, transfers, index)
    ensures ValidTimetable(tt)
  {
    hide RoutesOf, RouteOrder, FirstMentions, AllTrips;
    GoodRoutesAreValid(tt);
    hide GoodRoute, ValidRoute;
    forall r: nat, i: nat, s: nat | s < |tt.stops| && Visits(tt, r, i, s)
      ensures (r, i) in tt.stopRoutes[s]
    {
      var e: (nat, nat) := (r, i);
      assert VisitAt(tt.routes, e, s) && VisitBefore(e, |tt.routes|, 0);
    }
    forall s, l | 0 <= s < |tt.stops| && l in tt.links[s]
      ensures l.to < |tt.stops| && l.to != s
    {
      assert l in LinksFrom(transfers, index, s);
    }
    forall s: nat, e: (nat, nat) | s < |tt.stops| && e in tt.stopRoutes[s]
      ensures Visits(tt, e.0, e.1, s)
    {
      assert VisitAt(tt.routes, e, s);
    }
  }

  /** The routes do not depend on the order in which the hash map yields the groups. */
  lemma RoutesDetermined(tt: Timetable, other: Timetable, trips: seq<Trip>, transfers: seq<Transfer>,
                         index: map<Id, nat>)
    requires BuiltFrom(tt, trips, transfers, index) && BuiltFrom(other, trips, transfers, index) && UniqueIds(trips)
    ensures tt.routes == other.routes
  {
    ConservedAreDistinct(trips, tt.routes);
    RouteOrderSeparates(tt.routes, tt.stops);
    RouteOrderTotal();
    hide RouteOrder, RoutesOf, GoodRoute, AllTrips, LinksFrom, ChangeAt, FirstMentions;
    SortedUnique(tt.routes, other.routes, RouteOrder);
  }

  lemma RouteOrderSeparates(routes: seq<Route>, stops: seq<Id>)
    requires DistinctAcross(routes) && forall r :: 0 <= r < |routes| ==> GoodRoute(routes[r], stops)
    ensures Separates(routes, RouteOrder)
  {
    forall x, y | x in routes && y in routes && RouteOrder(x, y) && RouteOrder(y, x)
      ensures x == y
    {
      var a :| 0 <= a < |routes| && routes[a] == x;
      var b :| 0 <= b < |routes| && routes[b] == y;
      assert GoodRoute(routes[a], stops) && GoodRoute(routes[b], stops);
      assert HasTrip(routes, a, 0) && HasTrip(routes, b, 0);
      assert x.trips[0].tripId == y.trips[0].tripId;
      assert a == b;
    }
  }
}
