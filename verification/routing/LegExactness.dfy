/** The legs that can be travelled are exactly those that present a feasible itinerary, and moving a leading walk changes
    nothing about it. */
module LegExactness {
  import opened Machine
  import opened Network
  import opened Itineraries
  import opened Alignment
  import opened LegLaws

  // ---------------------------------------------------------------- one more leg

  lemma TravelsMore(q: Query, legs: seq<Leg>, leg: Leg, careful: bool)
    requires q.departure < U32_MAX && (legs == [] || Travels(q, legs, careful))
    ensures Travels(q, legs + [leg], careful) <==> LegPossible(q, legs, leg, careful)
  {
    var longer := legs + [leg];
    assert longer[..|legs|] == legs;
    hide LegPossible;
    forall n | 0 <= n < |legs|
      ensures LegPossible(q, longer[..n], longer[n], careful)
    {
      assert longer[..n] == legs[..n] && LegPossible(q, legs[..n], legs[n], careful);
    }
  }

  lemma TravelsFront(q: Query, legs: seq<Leg>, careful: bool)
    requires Travels(q, legs, careful)
    ensures var front := legs[..|legs| - 1];
            && (front == [] || Travels(q, front, careful)) && legs == front + [legs[|legs| - 1]]
            && LegPossible(q, front, legs[|legs| - 1], careful)
  {
    hide LegPossible;
    var front := legs[..|legs| - 1];
    assert legs == front + [legs[|legs| - 1]];
    forall n | 0 <= n < |front|
      ensures LegPossible(q, front[..n], front[n], careful)
    {
      assert front[..n] == legs[..n] && LegPossible(q, legs[..n], legs[n], careful);
    }
  }

  lemma ShownMore(q: Query, legs: seq<Leg>, leg: Leg)
    ensures ShownOnTime(q, legs + [leg]) <==> ShownOnTime(q, legs) && ShownAt(q, legs, leg)
  {
    var longer := legs + [leg];
    assert longer[..|legs|] == legs;
    hide ShownAt;
    assert forall n :: 0 <= n < |legs| ==> longer[..n] == legs[..n] && longer[n] == legs[n];
    if ShownOnTime(q, longer) {
      forall n | 0 <= n < |legs|
        ensures ShownAt(q, legs[..n], legs[n])
      {
        assert ShownAt(q, longer[..n], longer[n]);
      }
    }
  }

  lemma ReadyMore(q: Query, legs: seq<Leg>, leg: Leg)
    ensures ReadyAt(q, legs + [leg])
         == if leg.RideLeg? then ArrivesAt(q, leg) else ReadyAt(q, legs) + (leg.arrival - leg.departure)
    ensures RideCount(legs + [leg]) == RideCount(legs) + if leg.RideLeg? then 1 else 0
  {
    assert (legs + [leg])[..|legs|] == legs;
  }

  // ---------------------------------------------------------------- times as the search has them

  /** The stop times of a valid route name the stops the route visits. */
  lemma StopsNamed(q: Query, r: nat, t: nat, i: nat)
    requires ValidTimetable(q.tt) && IsVisit(q, r, t, i)
    ensures q.tt.routes[r].trips[t].stopTimes[i].stopId == NameOf(q.tt, StopAt(q, r, i))
    ensures q.tt.routes[r].trips[t].routeId == q.tt.routes[r].trips[0].routeId
    ensures q.tt.routes[r].trips[t].mode == q.tt.routes[r].trips[0].mode
  {
    assert ValidRoute(q.tt, r);
  }

  lemma TimesShifted(q: Query, r: nat, t: nat, i: nat)
    requires ValidTimetable(q.tt) && IsVisit(q, r, t, i)
    ensures var trip, name := q.tt.routes[r].trips[t], NameOf(q.tt, StopAt(q, r, i));
            && Departure(q, r, t, i) == Shifted(trip.stopTimes[i].departure, q.realtime.DelaySeconds(trip.tripId, name))
            && Arrival(q, r, t, i) == Shifted(trip.stopTimes[i].arrival, q.realtime.DelaySeconds(trip.tripId, name))
  {
    StopsNamed(q, r, t, i);
  }

  /** A ride as the itinerary has it is on the trip it says, and the other way round. */
  lemma RideOnTrip(q: Query, move: Move, official: bool)
    requires ValidTimetable(q.tt) && move.Ride? && Itineraries.RidePossible(q, move)
    ensures var leg := RideLegOf(q, move, official);
            && OnTrip(q, leg, move.route, move.trip, move.board, move.alight)
            && LeavesAt(q, leg) == Departure(q, move.route, move.trip, move.board)
            && ArrivesAt(q, leg) == Arrival(q, move.route, move.trip, move.alight)
            && leg.routeId !in q.excluded && (q.modes == {} || leg.mode in q.modes)
  {
    TimesShifted(q, move.route, move.trip, move.board);
    TimesShifted(q, move.route, move.trip, move.alight);
    StopsNamed(q, move.route, move.trip, move.board);
  }

  lemma TripIsRide(q: Query, leg: Leg, r: nat, t: nat, i: nat, j: nat)
    requires ValidTimetable(q.tt) && OnTrip(q, leg, r, t, i, j)
    requires leg.routeId !in q.excluded && (q.modes == {} || leg.mode in q.modes)
    requires leg.realtime <==> LeavesAt(q, leg) != leg.departure || ArrivesAt(q, leg) != leg.arrival
    ensures Itineraries.RidePossible(q, Ride(r, t, i, j))
    ensures leg == RideLegOf(q, Ride(r, t, i, j), leg.officialChange)
    ensures leg.from == StopAt(q, r, i) && leg.to == StopAt(q, r, j)
    ensures LeavesAt(q, leg) == Departure(q, r, t, i) && ArrivesAt(q, leg) == Arrival(q, r, t, j)
  {
    assert ValidRoute(q.tt, r);
    assert IsVisit(q, r, t, i) && IsVisit(q, r, t, j);
    TimesShifted(q, r, t, i);
    TimesShifted(q, r, t, j);
    StopsNamed(q, r, t, i);
  }

  // ---------------------------------------------------------------- from itineraries to legs

  /** What the legs of an itinerary say about it. */
  ghost predicate Shows(q: Query, it: Itinerary, legs: seq<Leg>) {
    && (legs == [] <==> it.Start?)
    && ReadyAt(q, legs) == Time(q, it) && RideCount(legs) == Rides(it)
    && (legs != [] ==> legs[|legs| - 1].to == End(q, it) && (legs[|legs| - 1].RideLeg? <==> it.move.Ride?))
  }

  lemma MarginIsSlack(q: Query, b: Itinerary, legs: seq<Leg>)
    requires Shows(q, b, legs)
    ensures SatAdd(0, Margin(q, legs, false)) == Slack(q, b)
    ensures SatAdd(0, Margin(q, legs, true)) == CautiousSlack(q, b)
    ensures UsesOfficialChange(q, b) <==>
              && |legs| > 0 && legs[|legs| - 1].RideLeg?
              && End(q, b) < |q.tt.minChange| && q.tt.minChange[End(q, b)].Some?
  {
  }

  lemma {:induction false} FeasibleTravels(q: Query, it: Itinerary)
    requires ValidQuery(q) && Feasible(q, it)
    ensures var legs := LegsOf(q, it);
            && Shows(q, it, legs) && ShownOnTime(q, legs) && (legs != [] ==> Travels(q, legs, false))
    ensures q.departure < U32_MAX
    decreases it
  {
    match it
    case Start(_) =>
    case Extend(b, move) =>
      hide ValidQuery;
      FeasibleTravels(q, b);
      var before := LegsOf(q, b);
      if move.Walk? {
        WalkTravels(q, b, move.link, before);
      } else {
        RideTravels(q, b, move, before);
      }
  }

  lemma LinksOnFoot(q: Query, from: nat, to: nat, seconds: int)
    ensures OnFootBetween(q, from, to, seconds) <==> exists l :: l in Links(q, from) && l.to == to && l.seconds == seconds
  {
    if l :| l in Links(q, from) && l.to == to && l.seconds == seconds {
      assert (from < |q.tt.links| && l in q.tt.links[from]) || (from in q.extraLinks && l in q.extraLinks[from]);
    }
  }

  lemma WalkLegFollows(q: Query, b: Itinerary, link: Link, before: seq<Leg>, leg: Leg)
    requires Feasible(q, Extend(b, Walk(link))) && Shows(q, b, before) && Time(q, b) >= 0
    requires leg == WalkLeg(End(q, b), link.to, Time(q, b), Time(q, b) + link.seconds)
    ensures LegPossible(q, before, leg, false) && ShownAt(q, before, leg)
    ensures Shows(q, Extend(b, Walk(link)), before + [leg])
  {
    hide Links, OnFootBetween;
    ReadyMore(q, before, leg);
    LinksOnFoot(q, End(q, b), link.to, link.seconds);
  }

  lemma WalkTravels(q: Query, b: Itinerary, link: Link, before: seq<Leg>)
    requires Feasible(q, Extend(b, Walk(link))) && q.departure < U32_MAX && before == LegsOf(q, b)
    requires Shows(q, b, before) && ShownOnTime(q, before) && (before != [] ==> Travels(q, before, false))
    ensures var it := Extend(b, Walk(link));
            Shows(q, it, LegsOf(q, it)) && ShownOnTime(q, LegsOf(q, it)) && Travels(q, LegsOf(q, it), false)
  {
    hide Shows, Travels, ShownOnTime, LegPossible, ShownAt;
    var it := Extend(b, Walk(link));
    WalkAddsLeg(q, it);
    var leg := WalkLeg(End(q, b), link.to, Time(q, b), Time(q, b) + link.seconds);
    WalkLegFollows(q, b, link, before, leg);
    hide Feasible, LegsOf;
    ShownMore(q, before, leg);
    TravelsMore(q, before, leg, false);
  }

  lemma RideLegFollows(q: Query, b: Itinerary, move: Move, before: seq<Leg>, leg: Leg)
    requires ValidTimetable(q.tt) && move.Ride? && Feasible(q, Extend(b, move)) && Shows(q, b, before)
    requires leg == RideLegOf(q, move, UsesOfficialChange(q, b))
    ensures LegPossible(q, before, leg, false) && ShownAt(q, before, leg)
    ensures Shows(q, Extend(b, move), before + [leg])
  {
    RideOnTrip(q, move, UsesOfficialChange(q, b));
    MarginIsSlack(q, b, before);
    ReadyMore(q, before, leg);
    hide ValidTimetable, Itineraries.RidePossible, OnTrip, Margin, Slack;
    assert HasVehicle(q, leg, false);
    assert RideLegPossible(q, before, leg, false);
  }

  lemma RideTravels(q: Query, b: Itinerary, move: Move, before: seq<Leg>)
    requires ValidTimetable(q.tt) && move.Ride?
    requires Feasible(q, Extend(b, move)) && q.departure < U32_MAX && before == LegsOf(q, b)
    requires Shows(q, b, before) && ShownOnTime(q, before) && (before != [] ==> Travels(q, before, false))
    ensures var it := Extend(b, move);
            Shows(q, it, LegsOf(q, it)) && ShownOnTime(q, LegsOf(q, it)) && Travels(q, LegsOf(q, it), false)
  {
    hide ValidTimetable, Shows, Travels, ShownOnTime, LegPossible, ShownAt;
    var it := Extend(b, move);
    RideAddsLeg(q, it);
    var leg := RideLegOf(q, move, UsesOfficialChange(q, b));
    RideLegFollows(q, b, move, before, leg);
    hide Feasible, LegsOf;
    ShownMore(q, before, leg);
    TravelsMore(q, before, leg, false);
  }

  // ---------------------------------------------------------------- from legs to itineraries

  /** The itinerary that the legs present. */
  ghost predicate Presented(q: Query, it: Itinerary, legs: seq<Leg>, careful: bool) {
    && Feasible(q, it) && Shows(q, it, legs) && LegsOf(q, it) == legs
    && (careful ==> Robust(q, it) && RidesOrderlyRoutes(q, it))
  }

  lemma {:induction false} TravelsFeasible(q: Query, legs: seq<Leg>, careful: bool) returns (it: Itinerary)
    requires ValidQuery(q) && Travels(q, legs, careful) && ShownOnTime(q, legs)
    ensures Presented(q, it, legs, careful)
  {
    TravelsFront(q, legs, careful);
    var front, leg := legs[..|legs| - 1], legs[|legs| - 1];
    ShownMore(q, front, leg);
    var b;
    if front == [] {
      b := Start(leg.from);
    } else {
      b := TravelsFeasible(q, front, careful);
    }
    hide ValidQuery, Travels, ShownOnTime;
    if leg.WalkLeg? {
      it := WalkPresented(q, b, front, leg, careful);
    } else {
      it := RidePresented(q, b, front, leg, careful);
    }
  }

  lemma WalkPresented(q: Query, b: Itinerary, front: seq<Leg>, leg: Leg, careful: bool) returns (it: Itinerary)
    requires Presented(q, b, front, careful) && LegPossible(q, front, leg, careful) && leg.WalkLeg? && ShownAt(q, front, leg)
    requires front == [] ==> b == Start(leg.from)
    ensures Presented(q, it, front + [leg], careful)
  {
    LinksOnFoot(q, leg.from, leg.to, leg.arrival - leg.departure);
    var link :| link in Links(q, leg.from) && link.to == leg.to && link.seconds == leg.arrival - leg.departure;
    it := Extend(b, Walk(link));
    TimeNonNegative(q, b);
    ReadyMore(q, front, leg);
    assert LegsOf(q, it) == front + [leg];
  }

  lemma RidePresented(q: Query, b: Itinerary, front: seq<Leg>, leg: Leg, careful: bool) returns (it: Itinerary)
    requires ValidTimetable(q.tt)
    requires Presented(q, b, front, careful) && LegPossible(q, front, leg, careful) && leg.RideLeg?
    requires front == [] ==> b == Start(leg.from)
    ensures Presented(q, it, front + [leg], careful)
  {
    hide ValidTimetable, LegsOf, OnTrip, Itineraries.RidePossible, Orderly, RideLegOf;
    var r, t, i, j :| OnTrip(q, leg, r, t, i, j) && (careful ==> Orderly(q, r));
    TripIsRide(q, leg, r, t, i, j);
    it := Extend(b, Ride(r, t, i, j));
    RideConnects(q, b, front, leg, it.move, careful);
    ReadyMore(q, front, leg);
    RideAddsLeg(q, it);
  }

  /** A ride that leaves in time connects. */
  lemma RideConnects(q: Query, b: Itinerary, front: seq<Leg>, leg: Leg, move: Move, careful: bool)
    requires Feasible(q, b) && Shows(q, b, front) && LegPossible(q, front, leg, careful) && leg.RideLeg?
    requires front == [] ==> b == Start(leg.from)
    requires move.Ride? && StopAt(q, move.route, move.board) == leg.from
    requires LeavesAt(q, leg) == Departure(q, move.route, move.trip, move.board)
    ensures Connects(q, b, move, Slack(q, b)) && (careful ==> Connects(q, b, move, CautiousSlack(q, b)))
    ensures UsesOfficialChange(q, b) == leg.officialChange
  {
    hide Feasible, LeavesAt, HasVehicle, StopAt, Departure;
    MarginIsSlack(q, b, front);
    TimeNonNegative(q, b);
  }

  /** The legs of feasible itineraries are exactly the legs that can be travelled, shown with the traveller's times. */
  lemma TravelsExactly(q: Query, legs: seq<Leg>)
    requires ValidQuery(q) && legs != []
    ensures Travels(q, legs, false) && ShownOnTime(q, legs) <==> exists it :: Feasible(q, it) && LegsOf(q, it) == legs
  {
    if Travels(q, legs, false) && ShownOnTime(q, legs) {
      var it := TravelsFeasible(q, legs, false);
    }
    if it :| Feasible(q, it) && LegsOf(q, it) == legs {
      FeasibleTravels(q, it);
    }
  }

  // ---------------------------------------------------------------- moving a leading walk

  /** The same ride, or a walk between the same stops that takes as long. */
  predicate Alike(x: Leg, y: Leg) {
    x == y || (x.WalkLeg? && y.WalkLeg? && x.from == y.from && x.to == y.to
               && x.arrival - x.departure == y.arrival - y.departure)
  }

  predicate AllAlike(xs: seq<Leg>, ys: seq<Leg>) {
    |xs| == |ys| && forall n :: 0 <= n < |xs| ==> Alike(xs[n], ys[n])
  }

  lemma {:induction false} AlikeReady(q: Query, xs: seq<Leg>, ys: seq<Leg>)
    requires AllAlike(xs, ys)
    ensures ReadyAt(q, xs) == ReadyAt(q, ys) && RideCount(xs) == RideCount(ys)
    ensures forall careful :: Margin(q, xs, careful) == Margin(q, ys, careful)
  {
    if |xs| > 0 {
      AlikeReady(q, xs[..|xs| - 1], ys[..|ys| - 1]);
    }
  }

  lemma AlikePossible(q: Query, before: seq<Leg>, leg: Leg, before': seq<Leg>, leg': Leg, careful: bool)
    requires AllAlike(before, before') && Alike(leg, leg') && LegPossible(q, before, leg, careful)
    ensures LegPossible(q, before', leg', careful)
  {
    AlikeReady(q, before, before');
    AlikeReady(q, before + [leg], before' + [leg']);
    hide ReadyAt, Margin, HasVehicle;
    if |before| > 0 {
      assert Alike(before[|before| - 1], before'[|before| - 1]);
    }
  }

  lemma AlikeTravels(q: Query, xs: seq<Leg>, ys: seq<Leg>, careful: bool)
    requires AllAlike(xs, ys) && Travels(q, xs, careful)
    ensures Travels(q, ys, careful)
  {
    hide LegPossible;
    forall n | 0 <= n < |ys|
      ensures LegPossible(q, ys[..n], ys[n], careful)
    {
      assert LegPossible(q, xs[..n], xs[n], careful);
      AlikePossible(q, xs[..n], xs[n], ys[..n], ys[n], careful);
    }
  }

  lemma AlignedAlike(legs: seq<Leg>)
    ensures AllAlike(legs, Aligned(legs))
  {
    if Alignable(legs) {
      var n := LeadingWalks(legs);
      LaidBeforeFits(legs[..n], legs[n].departure);
    }
  }

  lemma WalkForward(q: Query, legs: seq<Leg>, n: nat)
    requires Travels(q, legs, false) && n < |legs| && legs[n].WalkLeg?
    ensures legs[n].departure <= legs[n].arrival
  {
    assert LegPossible(q, legs[..n], legs[n], false);
    hide ReadyAt;
  }

  /** Before the first vehicle, the traveller is ready once the walks so far are over. */
  lemma {:induction false} LeadingReady(q: Query, legs: seq<Leg>, n: nat)
    requires n <= |legs| && (legs != [] ==> Travels(q, legs, false)) && forall i :: 0 <= i < n ==> legs[i].WalkLeg?
    ensures ReadyAt(q, legs[..n]) == q.departure + TotalDuration(legs[..n])
    ensures Forward(legs[..n]) && RideCount(legs[..n]) == 0
  {
    hide Travels;
    if n > 0 {
      LeadingReady(q, legs, n - 1);
      assert legs[..n][..n - 1] == legs[..n - 1] && legs[..n][n - 1] == legs[n - 1];
      WalkForward(q, legs, n - 1);
    }
  }

  lemma {:induction false} RidesCounted(legs: seq<Leg>, m: nat)
    requires m < |legs| && legs[m].RideLeg?
    ensures RideCount(legs) > 0
  {
    if m < |legs| - 1 {
      RidesCounted(legs[..|legs| - 1], m);
    }
  }

  /** A walk after the first vehicle stays where it was. */
  lemma LaterWalkShown(q: Query, legs: seq<Leg>, n: nat)
    requires ShownOnTime(q, legs) && LeadingWalks(legs) < n < |legs| && legs[n].WalkLeg?
    ensures n < |Aligned(legs)| && WalkShown(q, Aligned(legs), n)
  {
    var k, aligned := LeadingWalks(legs), Aligned(legs);
    AlignedAlike(legs);
    assert aligned[n] == legs[n] by {
      if Alignable(legs) {
        LaidBeforeFits(legs[..k], legs[k].departure);
      }
    }
    hide Aligned, ReadyAt, RideCount;
    assert Alike(legs[k], aligned[k]) && aligned[..n][k] == aligned[k];
    RidesCounted(aligned[..n], k);
    AlikeReady(q, legs[..n], aligned[..n]);
    assert ShownAt(q, legs[..n], legs[n]);
  }

  /** A walk before it was laid with the others, if they fit. */
  lemma LeadingWalkShown(q: Query, legs: seq<Leg>, n: nat)
    requires Travels(q, legs, false) && ShownOnTime(q, legs) && n < LeadingWalks(legs)
    ensures n < |Aligned(legs)| && WalkShown(q, Aligned(legs), n)
  {
    hide Travels, ShownOnTime, Aligned, ReadyAt, TotalDuration, WalkShown;
    var k, aligned := LeadingWalks(legs), Aligned(legs);
    AlignedAlike(legs);
    LeadingReady(q, legs, k);
    LeadingReady(q, legs, n);
    LeadingReady(q, legs, n + 1);
    AlikeReady(q, legs[..n], aligned[..n]);
    AlikeReady(q, legs[..n + 1], aligned[..n + 1]);
    if Alignable(legs) {
      MovedShown(q, legs, n);
    } else {
      UnmovedShown(q, legs, n);
      StaysShown(q, legs, n);
    }
  }

  lemma MovedShown(q: Query, legs: seq<Leg>, n: nat)
    requires Alignable(legs) && n < LeadingWalks(legs) && |Aligned(legs)| == |legs|
    requires RideCount(Aligned(legs)[..n]) == 0
    requires ReadyAt(q, Aligned(legs)[..n + 1]) == q.departure + TotalDuration(legs[..n + 1])
    ensures WalkShown(q, Aligned(legs), n)
  {
    hide ReadyAt, TotalDuration, RideCount;
    var k := LeadingWalks(legs);
    LaidBeforeFits(legs[..k], legs[k].departure);
    hide LaidBefore;
  }

  lemma StaysShown(q: Query, legs: seq<Leg>, n: nat)
    requires !Alignable(legs) && n < LeadingWalks(legs) && RideCount(legs[..n]) == 0
    requires legs[n].arrival == ReadyAt(q, legs[..n + 1]) && (n > 0 ==> legs[n - 1].arrival == legs[n].departure)
    requires ReadyAt(q, legs[..n + 1]) == q.departure + TotalDuration(legs[..n + 1]) && Forward(legs[..LeadingWalks(legs)])
    ensures WalkShown(q, Aligned(legs), n)
  {
    hide ReadyAt, TotalDuration, RideCount;
  }

  lemma UnmovedShown(q: Query, legs: seq<Leg>, n: nat)
    requires ShownOnTime(q, legs) && n < LeadingWalks(legs)
    ensures legs[n].arrival == ReadyAt(q, legs[..n + 1])
    ensures n > 0 ==> legs[n - 1].arrival == legs[n].departure
  {
    ReadyMore(q, legs[..n], legs[n]);
    assert legs[..n + 1] == legs[..n] + [legs[n]];
    assert ShownAt(q, legs[..n], legs[n]);
    if n > 0 {
      ReadyMore(q, legs[..n - 1], legs[n - 1]);
      assert legs[..n] == legs[..n - 1] + [legs[n - 1]];
      assert ShownAt(q, legs[..n - 1], legs[n - 1]);
    }
  }

  /** The legs of an itinerary, as a journey shows them. */
  lemma AlignedShown(q: Query, legs: seq<Leg>)
    requires Travels(q, legs, false) && ShownOnTime(q, legs)
    ensures ShownInJourney(q, Aligned(legs))
  {
    AlignedAlike(legs);
    hide Travels, Aligned, WalkShown, ShownOnTime;
    forall n | 0 <= n < |Aligned(legs)| && Aligned(legs)[n].WalkLeg?
      ensures WalkShown(q, Aligned(legs), n)
    {
      assert Alike(legs[n], Aligned(legs)[n]);
      if n < LeadingWalks(legs) {
        LeadingWalkShown(q, legs, n);
      } else {
        LaterWalkShown(q, legs, n);
      }
    }
  }
}
