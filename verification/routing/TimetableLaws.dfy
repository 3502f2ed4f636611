/** What a built timetable says about its input, by the names of stops and the times of trips alone. */
module TimetableLaws {
  import opened Machine
  import opened Network
  import opened Partition
  import opened PartitionLaws
  import opened RouteBuilding
  import opened Grouping
  import opened TimetableBuilder

  // ---------------------------------------------------------------- stops

  predicate StopsThere(trip: Trip, id: Id) {
    exists i :: 0 <= i < |trip.stopTimes| && trip.stopTimes[i].stopId == id
  }

  predicate NamedByTrip(trips: seq<Trip>, id: Id) {
    exists t :: t in trips && StopsThere(t, id)
  }

  predicate NamedByTransfer(transfers: seq<Transfer>, id: Id) {
    exists t :: t in transfers && (t.from == id || t.to == id)
  }

  /** The timetable knows exactly the stops that trips and transfers name, each once; those named by earlier trips come
      first, and those that only transfers name come last. */
  ghost predicate StopsKept(tt: Timetable, trips: seq<Trip>, transfers: seq<Transfer>) {
    && (forall id :: id in tt.stops <==> NamedByTrip(trips, id) || NamedByTransfer(transfers, id))
    && (forall a, b :: 0 <= a < b < |tt.stops| ==> tt.stops[a] != tt.stops[b])
    && (forall n, a, b :: 0 <= n <= |trips| && 0 <= a < |tt.stops| && 0 <= b < |tt.stops|
                          && OnlyFirst(trips, n, tt.stops[a], tt.stops[b]) ==>
          a < b)
  }

  /** Of the two, only `x` is a stop of the first `n` trips. */
  predicate OnlyFirst(trips: seq<Trip>, n: nat, x: Id, y: Id)
    requires n <= |trips|
  {
    NamedByTrip(trips[..n], x) && !NamedByTrip(trips[..n], y)
  }

  lemma StopIdsExact(trip: Trip, id: Id)
    ensures id in StopIds(trip) <==> StopsThere(trip, id)
  {
    var ids := StopIds(trip);
    assert |ids| == |trip.stopTimes| && forall i :: 0 <= i < |ids| ==> ids[i] == trip.stopTimes[i].stopId;
    if StopsThere(trip, id) {
      var i :| 0 <= i < |trip.stopTimes| && trip.stopTimes[i].stopId == id;
      assert ids[i] in ids;
    }
  }

  lemma {:induction false} TripStopIdsExact(trips: seq<Trip>, id: Id)
    ensures id in TripStopIds(trips) <==> NamedByTrip(trips, id)
  {
    if |trips| > 0 {
      TripStopIdsExact(trips[1..], id);
      assert trips == [trips[0]] + trips[1..];
      StopIdsExact(trips[0], id);
      assert NamedByTrip(trips, id) <==> StopsThere(trips[0], id) || NamedByTrip(trips[1..], id);
    }
  }

  lemma {:induction false} TransferStopIdsExact(transfers: seq<Transfer>, id: Id)
    ensures id in TransferStopIds(transfers) <==> NamedByTransfer(transfers, id)
  {
    if |transfers| > 0 {
      TransferStopIdsExact(transfers[1..], id);
      var first := transfers[0];
      assert transfers == [first] + transfers[1..];
      assert NamedByTransfer(transfers, id) <==> first.from == id || first.to == id || NamedByTransfer(transfers[1..], id);
    }
  }

  lemma {:induction false} TripStopIdsSplit(trips: seq<Trip>, n: nat)
    requires n <= |trips|
    ensures TripStopIds(trips) == TripStopIds(trips[..n]) + TripStopIds(trips[n..])
  {
    if n == 0 {
      assert trips[..0] == [] && trips[0..] == trips;
    } else {
      TripStopIdsSplit(trips[1..], n - 1);
      assert trips[1..][..n - 1] == trips[..n][1..] && trips[1..][n - 1..] == trips[n..];
    }
  }

  /** What is mentioned first is numbered first. */
  lemma {:induction false} FirstMentionsPrefix(front: seq<Id>, back: seq<Id>)
    ensures FirstMentions(front) <= FirstMentions(front + back)
  {
    if |back| == 0 {
      assert front + back == front;
    } else {
      assert (front + back)[..|front + back| - 1] == front + back[..|back| - 1];
      FirstMentionsPrefix(front, back[..|back| - 1]);
    }
  }

  lemma StopsInOrder(stops: seq<Id>, front: seq<Id>, back: seq<Id>, index: map<Id, nat>, a: nat, b: nat)
    requires stops == FirstMentions(front + back) && Indexed(stops, index)
    requires a < |stops| && b < |stops| && stops[a] in front && stops[b] !in front
    ensures a < b
  {
    FirstMentionsPrefix(front, back);
    FirstMentionsKeep(front);
    var first := FirstMentions(front);
    var i :| 0 <= i < |first| && first[i] == stops[a];
    assert stops[i] == stops[a] && index[stops[a]] == a && index[stops[i]] == i;
    forall k | 0 <= k < |first|
      ensures stops[k] in front
    {
      assert first[k] in first && first[k] == stops[k];
    }
  }

  lemma BuiltStopsKept(tt: Timetable, trips: seq<Trip>, transfers: seq<Transfer>, index: map<Id, nat>)
    requires tt.stops == FirstMentions(TripStopIds(trips) + TransferStopIds(transfers)) && Indexed(tt.stops, index)
    ensures StopsKept(tt, trips, transfers)
  {
    var ids := TripStopIds(trips) + TransferStopIds(transfers);
    FirstMentionsKeep(ids);
    forall id
      ensures id in tt.stops <==> NamedByTrip(trips, id) || NamedByTransfer(transfers, id)
    {
      TripStopIdsExact(trips, id);
      TransferStopIdsExact(transfers, id);
    }
    forall a, b | 0 <= a < b < |tt.stops|
      ensures tt.stops[a] != tt.stops[b]
    {
      assert index[tt.stops[a]] == a && index[tt.stops[b]] == b;
    }
    hide TripStopIds, TransferStopIds, FirstMentions, Indexed;
    forall n, a, b | 0 <= n <= |trips| && 0 <= a < |tt.stops| && 0 <= b < |tt.stops|
                     && OnlyFirst(trips, n, tt.stops[a], tt.stops[b])
      ensures a < b
    {
      EarlierNamed(tt.stops, trips, transfers, index, n, a, b);
    }
  }

  lemma EarlierNamed(stops: seq<Id>, trips: seq<Trip>, transfers: seq<Transfer>, index: map<Id, nat>, n: nat, a: nat, b: nat)
    requires stops == FirstMentions(TripStopIds(trips) + TransferStopIds(transfers)) && Indexed(stops, index)
    requires n <= |trips| && a < |stops| && b < |stops| && OnlyFirst(trips, n, stops[a], stops[b])
    ensures a < b
  {
    TripStopIdsSplit(trips, n);
    TripStopIdsExact(trips[..n], stops[a]);
    TripStopIdsExact(trips[..n], stops[b]);
    var front, back := TripStopIds(trips[..n]), TripStopIds(trips[n..]) + TransferStopIds(transfers);
    assert TripStopIds(trips) + TransferStopIds(transfers) == front + back;
    hide NamedByTrip, FirstMentions, TripStopIds, TransferStopIds;
    StopsInOrder(stops, front, back, index, a, b);
  }

  // ---------------------------------------------------------------- transfers

  /** The link at stop `s` is the transfer between the stops of those names. */
  predicate IsLink(tt: Timetable, s: nat, link: Link, transfer: Transfer) {
    && s < |tt.stops| && link.to < |tt.stops|
    && transfer.from == tt.stops[s] && transfer.to == tt.stops[link.to] && transfer.seconds == link.seconds
  }

  predicate HasLink(tt: Timetable, transfer: Transfer)
    requires |tt.links| == |tt.stops|
  {
    exists s: nat :: s < |tt.stops| && exists l :: l in tt.links[s] && IsLink(tt, s, l, transfer)
  }

  predicate FromTransfer(tt: Timetable, transfers: seq<Transfer>, s: nat, link: Link) {
    exists t :: t in transfers && t.from != t.to && IsLink(tt, s, link, t)
  }

  /** A transfer from a stop to itself. */
  predicate SameStop(transfer: Transfer, id: Id) {
    transfer.from == id && transfer.to == id
  }

  /** The shortest change at the stop, if there is one. */
  predicate LeastChange(transfers: seq<Transfer>, id: Id, least: Option<U32>) {
    && (least.None? <==> forall t :: t in transfers ==> !SameStop(t, id))
    && (least.Some? ==> (exists t :: t in transfers && SameStop(t, id) && t.seconds == least.value)
                        && forall t :: t in transfers && SameStop(t, id) ==> least.value <= t.seconds)
  }

  /** Transfers between different stops are links and nothing else is; those from a stop to itself are its change time. */
  ghost predicate TransfersKept(tt: Timetable, transfers: seq<Transfer>) {
    && |tt.links| == |tt.minChange| == |tt.stops|
    && (forall t :: t in transfers && t.from != t.to ==> HasLink(tt, t))
    && (forall s, l :: 0 <= s < |tt.stops| && l in tt.links[s] ==> FromTransfer(tt, transfers, s, l))
    && (forall s :: 0 <= s < |tt.stops| ==> LeastChange(transfers, tt.stops[s], tt.minChange[s]))
  }

  lemma {:induction false} LinksFromExact(transfers: seq<Transfer>, index: map<Id, nat>, s: nat)
    ensures forall t :: t in transfers && IsWalk(t, index, s) ==> Link(index[t.to], t.seconds) in LinksFrom(transfers, index, s)
    ensures forall l :: l in LinksFrom(transfers, index, s) ==>
              exists t :: t in transfers && IsWalk(t, index, s) && l == Link(index[t.to], t.seconds)
  {
    if |transfers| > 0 {
      var front, last := transfers[..|transfers| - 1], transfers[|transfers| - 1];
      LinksFromExact(front, index, s);
      assert transfers == front + [last];
    }
  }

  lemma {:induction false} ChangeAtExact(transfers: seq<Transfer>, index: map<Id, nat>, stops: seq<Id>, s: nat)
    requires Indexed(stops, index) && s < |stops|
    ensures LeastChange(transfers, stops[s], ChangeAt(transfers, index, s))
  {
    if |transfers| > 0 {
      var front, last := transfers[..|transfers| - 1], transfers[|transfers| - 1];
      ChangeAtExact(front, index, stops, s);
      assert transfers == front + [last];
      assert SameStop(last, stops[s]) <==> IsChange(last, index, s);
      hide Indexed, IsChange;
      LeastMore(front, last, stops[s], ChangeAt(front, index, s), ChangeAt(transfers, index, s));
    }
  }

  lemma LeastMore(front: seq<Transfer>, last: Transfer, id: Id, known: Option<U32>, least: Option<U32>)
    requires LeastChange(front, id, known)
    requires least == if !SameStop(last, id) then known
                      else if known.None? || last.seconds < known.value then Some(last.seconds) else known
    ensures LeastChange(front + [last], id, least)
  {
    var all := front + [last];
    assert last in all && forall t :: t in all <==> t in front || t == last;
    if known.Some? {
      var t :| t in front && SameStop(t, id) && t.seconds == known.value;
      assert t in all;
    }
  }

  lemma BuiltTransfersKept(tt: Timetable, trips: seq<Trip>, transfers: seq<Transfer>, index: map<Id, nat>)
    requires BuiltFrom(tt, trips, transfers, index) && StopsKept(tt, trips, transfers)
    ensures TransfersKept(tt, transfers)
  {
    hide RoutesOf, GoodRoute, AllTrips, VisitsListed, Mapped, FirstMentions, LinksFrom, ChangeAt;
    forall t | t in transfers && t.from != t.to
      ensures HasLink(tt, t)
    {
      assert NamedByTransfer(transfers, t.from) && NamedByTransfer(transfers, t.to);
      var s := index[t.from];
      LinksFromExact(transfers, index, s);
      assert Link(index[t.to], t.seconds) in tt.links[s];
      assert IsLink(tt, s, Link(index[t.to], t.seconds), t);
    }
    forall s, l | 0 <= s < |tt.stops| && l in tt.links[s]
      ensures FromTransfer(tt, transfers, s, l)
    {
      LinksFromExact(transfers, index, s);
      var t :| t in transfers && IsWalk(t, index, s) && l == Link(index[t.to], t.seconds);
      assert IsLink(tt, s, l, t);
    }
    forall s | 0 <= s < |tt.stops|
      ensures LeastChange(transfers, tt.stops[s], tt.minChange[s])
    {
      ChangeAtExact(transfers, index, tt.stops, s);
    }
  }

  // ---------------------------------------------------------------- routes

  /** Trips of one line and mode that visit the same stops. */
  predicate SameService(x: Trip, y: Trip) {
    && x.routeId == y.routeId && x.mode == y.mode && |x.stopTimes| == |y.stopTimes|
    && forall i :: 0 <= i < |x.stopTimes| ==> x.stopTimes[i].stopId == y.stopTimes[i].stopId
  }

  lemma SameServiceSamePattern(x: Trip, y: Trip)
    ensures SameService(x, y) <==> PatternOf(x) == PatternOf(y)
  {
    var a, b := StopIds(x), StopIds(y);
    assert |a| == |x.stopTimes| && |b| == |y.stopTimes|;
    assert forall i :: 0 <= i < |a| ==> a[i] == x.stopTimes[i].stopId;
    assert forall i :: 0 <= i < |b| ==> b[i] == y.stopTimes[i].stopId;
    if SameService(x, y) {
      assert a == b;
    } else if a == b {
      assert forall i :: 0 <= i < |a| ==> a[i] == b[i];
    }
  }

  /** On a route the trips are of one service, and none is ever ahead of an earlier one. */
  ghost predicate NoneOvertakes(routes: seq<Route>) {
    forall r, x, y :: 0 <= r < |routes| && 0 <= x < y < |routes[r].trips| ==>
      SameService(routes[r].trips[x], routes[r].trips[y]) && Ahead(routes[r].trips[x], routes[r].trips[y])
  }

  /** A trip shares the route of the latest trip of its service that it may follow, and begins one only when it may
      follow none. */
  ghost predicate JoinsLatest(routes: seq<Route>)
    requires forall r :: 0 <= r < |routes| ==> |routes[r].trips| > 0
  {
    forall r, s :: 0 <= r < |routes| && 0 <= s < |routes| && r != s
                   && SameService(routes[r].trips[0], routes[s].trips[0]) ==>
      PreferredOver(routes[r].trips, routes[s].trips)
  }

  /** Routes come by line, then by first trip. */
  ghost predicate ByLine(routes: seq<Route>)
    requires forall r :: 0 <= r < |routes| ==> |routes[r].trips| > 0
  {
    forall r, s :: 0 <= r < s < |routes| ==>
      var x, y := routes[r].trips[0], routes[s].trips[0];
      x.routeId < y.routeId || (x.routeId == y.routeId && x.tripId < y.tripId)
  }

  /** The routes hold exactly the given trips. */
  ghost predicate RoutesKept(routes: seq<Route>, trips: seq<Trip>) {
    && AllTrips(routes) == multiset(trips)
    && (forall r :: 0 <= r < |routes| ==> |routes[r].trips| > 0)
    && NoneOvertakes(routes) && JoinsLatest(routes) && ByLine(routes)
  }

  lemma {:induction false} TripsOfUnique(trips: seq<Trip>, patterns: set<Pattern>)
    requires UniqueIds(trips)
    ensures UniqueIds(TripsOf(trips, patterns))
  {
    if |trips| > 0 {
      var front := trips[..|trips| - 1];
      TripsOfUnique(front, patterns);
      TripsOfMembers(front, patterns);
      var kept := TripsOf(front, patterns);
      forall i | 0 <= i < |kept|
        ensures kept[i].tripId != trips[|trips| - 1].tripId
      {
        assert kept[i] in front;
      }
    }
  }

  lemma {:induction false} RouteOfSomeChain(chains: seq<seq<Trip>>, index: map<Id, nat>, route: Route)
    requires route in MapRoutes(chains, index)
    ensures exists c :: c in chains && route == MakeRoute(c, index)
  {
    var last := |chains| - 1;
    if route in MapRoutes(chains[..last], index) {
      RouteOfSomeChain(chains[..last], index, route);
    } else {
      assert chains[last] in chains;
    }
  }

  /** The route is that of a chain of its service's trips. */
  ghost predicate FromChain(trips: seq<Trip>, index: map<Id, nat>, route: Route, pattern: Pattern) {
    exists c :: c in Chains(TripsOf(trips, {pattern})) && route == MakeRoute(c, index)
  }

  lemma {:induction false} RouteOfSomePattern(trips: seq<Trip>, patterns: set<Pattern>, index: map<Id, nat>, route: Route)
      returns (pattern: Pattern)
    requires route in RoutesOf(trips, patterns, index)
    ensures pattern in patterns && FromChain(trips, index, route, pattern)
    decreases patterns
  {
    pattern :| pattern in patterns
      && RoutesOf(trips, patterns, index)
         == RoutesOfPattern(trips, pattern, index) + RoutesOf(trips, patterns - {pattern}, index);
    if route in RoutesOf(trips, patterns - {pattern}, index) {
      pattern := RouteOfSomePattern(trips, patterns - {pattern}, index, route);
    } else {
      assert route in RoutesOfPattern(trips, pattern, index);
      var routes := MapRoutes(Chains(TripsOf(trips, {pattern})), index);
      assert route in multiset(routes);
      RouteOfSomeChain(Chains(TripsOf(trips, {pattern})), index, route);
    }
  }

  lemma {:induction false} TripsOfHolds(trips: seq<Trip>, t: Trip)
    requires t in trips
    ensures t in TripsOf(trips, {PatternOf(t)})
  {
    var front, last := trips[..|trips| - 1], trips[|trips| - 1];
    assert trips == front + [last];
    if t in front {
      TripsOfHolds(front, t);
    }
  }

  /** A chain of a service is what its route holds. */
  lemma ChainKept(trips: seq<Trip>, pattern: Pattern, c: seq<Trip>, index: map<Id, nat>)
    requires (forall t :: t in trips ==> |t.stopTimes| > 0) && TripsOf(trips, {pattern}) != []
    requires c in Chains(TripsOf(trips, {pattern}))
    ensures MakeRoute(c, index).trips == c && |c| > 0 && forall t :: t in c ==> PatternOf(t) == pattern
  {
    var group := TripsOf(trips, {pattern});
    TripsOfMembers(trips, {pattern});
    GroupIsPattern(trips, pattern);
    assert group[0] in group;
    ChainsCorrect(group, |pattern.stops|);
    FlatMembers(Chains(group));
    forall t | t in c
      ensures t in group
    {
      assert t in multiset(Flat(Chains(group)));
    }
    ChainSorted(c, |pattern.stops|);
  }

  lemma BuiltRoutes(tt: Timetable, trips: seq<Trip>, transfers: seq<Transfer>, index: map<Id, nat>)
    requires BuiltFrom(tt, trips, transfers, index)
    ensures multiset(tt.routes) == RoutesOf(trips, set t | t in trips :: PatternOf(t), index)
    ensures AllTrips(tt.routes) == multiset(trips)
  {
    hide RoutesOf, AllTrips, GoodRoute, VisitsListed, Mapped, LinksFrom, ChangeAt, FirstMentions, PatternOf;
  }

  /** Each route of the timetable is the chain of its service. */
  lemma RouteFromChain(tt: Timetable, trips: seq<Trip>, transfers: seq<Transfer>, index: map<Id, nat>, r: nat)
    requires BuiltFrom(tt, trips, transfers, index) && (forall t :: t in trips ==> |t.stopTimes| > 0) && r < |tt.routes|
    ensures var own := tt.routes[r].trips;
            && |own| > 0 && own in Chains(TripsOf(trips, {PatternOf(own[0])}))
            && forall t :: t in own ==> PatternOf(t) == PatternOf(own[0])
  {
    hide BuiltFrom, RoutesOf, Chains, MakeRoute, PatternOf, TripsOf;
    var patterns := set t | t in trips :: PatternOf(t);
    BuiltRoutes(tt, trips, transfers, index);
    assert tt.routes[r] in multiset(tt.routes);
    var pattern := RouteOfSomePattern(trips, patterns, index, tt.routes[r]);
    var c :| c in Chains(TripsOf(trips, {pattern})) && tt.routes[r] == MakeRoute(c, index);
    var t :| t in trips && PatternOf(t) == pattern;
    TripsOfHolds(trips, t);
    ChainKept(trips, pattern, c, index);
  }

  /** Different routes of one service are different chains of it. */
  lemma RoutesPreferred(tt: Timetable, trips: seq<Trip>, transfers: seq<Transfer>, index: map<Id, nat>, r: nat, s: nat)
    requires BuiltFrom(tt, trips, transfers, index) && (forall t :: t in trips ==> |t.stopTimes| > 0)
    requires UniqueIds(trips) && DistinctAcross(tt.routes)
    requires r < |tt.routes| && s < |tt.routes| && r != s && |tt.routes[r].trips| > 0 && |tt.routes[s].trips| > 0
    requires SameService(tt.routes[r].trips[0], tt.routes[s].trips[0])
    ensures PreferredOver(tt.routes[r].trips, tt.routes[s].trips)
  {
    var x, y := tt.routes[r].trips, tt.routes[s].trips;
    SameServiceSamePattern(x[0], y[0]);
    RouteFromChain(tt, trips, transfers, index, r);
    RouteFromChain(tt, trips, transfers, index, s);
    assert x != y by {
      assert TimetableBuilder.HasTrip(tt.routes, r, 0) && TimetableBuilder.HasTrip(tt.routes, s, 0);
    }
    hide PreferredOver, BuiltFrom, Chains, PatternOf, SameService, DistinctAcross;
    var group := TripsOf(trips, {PatternOf(x[0])});
    TripsOfUnique(trips, {PatternOf(x[0])});
    ChainsWellChosen(group);
    var chains := Chains(group);
    var a :| 0 <= a < |chains| && chains[a] == x;
    var b :| 0 <= b < |chains| && chains[b] == y;
    assert PreferredOver(chains[a], chains[b]);
  }

  lemma RouteInOrder(tt: Timetable, trips: seq<Trip>, transfers: seq<Transfer>, index: map<Id, nat>, r: nat, x: nat, y: nat)
    requires BuiltFrom(tt, trips, transfers, index) && (forall t :: t in trips ==> |t.stopTimes| > 0)
    requires r < |tt.routes| && x < y < |tt.routes[r].trips|
    ensures SameService(tt.routes[r].trips[x], tt.routes[r].trips[y]) && Ahead(tt.routes[r].trips[x], tt.routes[r].trips[y])
  {
    var own := tt.routes[r].trips;
    RouteFromChain(tt, trips, transfers, index, r);
    assert own[x] in own && own[y] in own;
    SameServiceSamePattern(own[x], own[y]);
    assert GoodRoute(tt.routes[r], tt.stops);
    assert Precedes(own[x], own[y]);
  }

  lemma RoutesAscend(tt: Timetable, trips: seq<Trip>, transfers: seq<Transfer>, index: map<Id, nat>, r: nat, s: nat)
    requires BuiltFrom(tt, trips, transfers, index) && DistinctAcross(tt.routes) && r < s < |tt.routes|
    ensures |tt.routes[r].trips| > 0 && |tt.routes[s].trips| > 0
    ensures var x, y := tt.routes[r].trips[0], tt.routes[s].trips[0];
            x.routeId < y.routeId || (x.routeId == y.routeId && x.tripId < y.tripId)
  {
    assert GoodRoute(tt.routes[r], tt.stops) && GoodRoute(tt.routes[s], tt.stops);
    assert TimetableBuilder.HasTrip(tt.routes, r, 0) && TimetableBuilder.HasTrip(tt.routes, s, 0);
    assert RouteOrder(tt.routes[r], tt.routes[s]);
  }

  lemma BuiltNoneOvertakes(tt: Timetable, trips: seq<Trip>, transfers: seq<Transfer>, index: map<Id, nat>)
    requires BuiltFrom(tt, trips, transfers, index) && forall t :: t in trips ==> |t.stopTimes| > 0
    ensures NoneOvertakes(tt.routes) && forall r :: 0 <= r < |tt.routes| ==> |tt.routes[r].trips| > 0
  {
    hide BuiltFrom, SameService, Ahead;
    forall r | 0 <= r < |tt.routes|
      ensures |tt.routes[r].trips| > 0
    {
      RouteFromChain(tt, trips, transfers, index, r);
    }
    forall r, x, y | 0 <= r < |tt.routes| && 0 <= x < y < |tt.routes[r].trips|
      ensures SameService(tt.routes[r].trips[x], tt.routes[r].trips[y]) && Ahead(tt.routes[r].trips[x], tt.routes[r].trips[y])
    {
      RouteInOrder(tt, trips, transfers, index, r, x, y);
    }
  }

  lemma BuiltJoinsLatest(tt: Timetable, trips: seq<Trip>, transfers: seq<Transfer>, index: map<Id, nat>)
    requires BuiltFrom(tt, trips, transfers, index) && (forall t :: t in trips ==> |t.stopTimes| > 0) && UniqueIds(trips)
    requires DistinctAcross(tt.routes) && forall r :: 0 <= r < |tt.routes| ==> |tt.routes[r].trips| > 0
    ensures JoinsLatest(tt.routes)
  {
    hide BuiltFrom, SameService, PreferredOver, DistinctAcross, UniqueIds;
    var routes := tt.routes;
    forall r, s | 0 <= r < |routes| && 0 <= s < |routes| && r != s && SameService(routes[r].trips[0], routes[s].trips[0])
      ensures PreferredOver(routes[r].trips, routes[s].trips)
    {
      RoutesPreferred(tt, trips, transfers, index, r, s);
    }
  }

  lemma BuiltByLine(tt: Timetable, trips: seq<Trip>, transfers: seq<Transfer>, index: map<Id, nat>)
    requires BuiltFrom(tt, trips, transfers, index) && DistinctAcross(tt.routes)
    requires forall r :: 0 <= r < |tt.routes| ==> |tt.routes[r].trips| > 0
    ensures ByLine(tt.routes)
  {
    hide BuiltFrom, DistinctAcross;
    forall r, s | 0 <= r < s < |tt.routes|
      ensures var x, y := tt.routes[r].trips[0], tt.routes[s].trips[0];
              x.routeId < y.routeId || (x.routeId == y.routeId && x.tripId < y.tripId)
    {
      RoutesAscend(tt, trips, transfers, index, r, s);
    }
  }

  lemma BuiltRoutesKept(tt: Timetable, trips: seq<Trip>, transfers: seq<Transfer>, index: map<Id, nat>)
    requires BuiltFrom(tt, trips, transfers, index) && (forall t :: t in trips ==> |t.stopTimes| > 0) && UniqueIds(trips)
    ensures RoutesKept(tt.routes, trips)
  {
    hide BuiltFrom, NoneOvertakes, JoinsLatest, ByLine, DistinctAcross, UniqueIds, AllTrips;
    BuiltRoutes(tt, trips, transfers, index);
    ConservedAreDistinct(trips, tt.routes);
    BuiltNoneOvertakes(tt, trips, transfers, index);
    BuiltJoinsLatest(tt, trips, transfers, index);
    BuiltByLine(tt, trips, transfers, index);
  }

  /** A built timetable says of its input what there is to say, by names and times. */
  lemma BuiltAsGiven(tt: Timetable, trips: seq<Trip>, transfers: seq<Transfer>, index: map<Id, nat>)
    requires BuiltFrom(tt, trips, transfers, index) && (forall t :: t in trips ==> |t.stopTimes| > 0) && UniqueIds(trips)
    ensures StopsKept(tt, trips, transfers) && TransfersKept(tt, transfers) && RoutesKept(tt.routes, trips)
  {
    BuiltRoutesKept(tt, trips, transfers, index);
    BuiltStopsKept(tt, trips, transfers, index);
    BuiltTransfersKept(tt, trips, transfers, index);
  }
}
