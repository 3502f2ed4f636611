/** What the legs of a scanned journey promise, in terms of connections and transfers alone. */
module ScanLaws {
  import opened Network
  import opened ScanItineraries

  function From(leg: Leg): Id {
    match leg
    case WalkLeg(from, _, _, _) => from
    case RideLeg(c) => c.from
  }

  function To(leg: Leg): Id {
    match leg
    case WalkLeg(_, to, _, _) => to
    case RideLeg(c) => c.to
  }

  function Leaves(leg: Leg): nat {
    match leg
    case WalkLeg(_, _, departure, _) => departure
    case RideLeg(c) => c.departure
  }

  function Arrives(leg: Leg): nat {
    match leg
    case WalkLeg(_, _, _, arrival) => arrival
    case RideLeg(c) => c.arrival
  }

  /** Where the legs lead, and when. */
  function Place(req: Request, legs: seq<Leg>): Id {
    if |legs| == 0 then req.origin else To(legs[|legs| - 1])
  }

  function ReachedAt(req: Request, legs: seq<Leg>): nat {
    if |legs| == 0 then req.departure else Arrives(legs[|legs| - 1])
  }

  /** The leg starts where the legs before it end: a transfer taken at once, or a connection of an allowed mode that has
      not left yet. */
  predicate LegPossible(net: Snapshot, req: Request, before: seq<Leg>, leg: Leg) {
    && From(leg) == Place(req, before)
    && match leg
       case WalkLeg(from, to, departure, arrival) =>
         departure == ReachedAt(req, before)
         && exists t :: t in net.transfers && t.from == from && t.to == to && departure + t.seconds == arrival
       case RideLeg(c) =>
         c in net.connections && (req.modes == {} || c.mode in req.modes) && ReachedAt(req, before) <= c.departure
  }

  predicate Travels(net: Snapshot, req: Request, legs: seq<Leg>) {
    forall n :: 0 <= n < |legs| ==> LegPossible(net, req, legs[..n], legs[n])
  }

  /** One change fewer than legs, but a walk at the start counts, too. */
  function ChangeCount(legs: seq<Leg>): nat {
    if |legs| == 0 then 0 else if legs[0].WalkLeg? then |legs| else |legs| - 1
  }

  /** What a journey promises: legs that lead to the target within the limit, and the times of its ends. */
  predicate Kept(net: Snapshot, req: Request, j: Journey) {
    && Travels(net, req, j.legs) && Place(req, j.legs) == req.target
    && j.transferCount == ChangeCount(j.legs) <= req.maxTransfers
    && j.departure == (if |j.legs| == 0 then req.departure else Leaves(j.legs[0]))
    && j.arrival == ReachedAt(req, j.legs)
    && j.duration == if j.arrival < j.departure then 0 else j.arrival - j.departure
  }

  lemma TravelsMore(net: Snapshot, req: Request, legs: seq<Leg>, leg: Leg)
    ensures Travels(net, req, legs + [leg]) <==> Travels(net, req, legs) && LegPossible(net, req, legs, leg)
  {
    var longer := legs + [leg];
    hide LegPossible;
    assert longer[..|legs|] == legs && forall n :: 0 <= n < |legs| ==> longer[..n] == legs[..n];
    if Travels(net, req, longer) {
      forall n | 0 <= n < |legs|
        ensures LegPossible(net, req, legs[..n], legs[n])
      {
        assert LegPossible(net, req, longer[..n], longer[n]);
      }
      assert LegPossible(net, req, longer[..|legs|], longer[|legs|]);
    }
  }

  /** The legs say where and when the itinerary ends, and how often it changes. */
  predicate Shows(req: Request, it: Itinerary, legs: seq<Leg>) {
    && (legs == [] <==> it.Start?)
    && Place(req, legs) == End(req, it) && ReachedAt(req, legs) == Time(req, it) && ChangeCount(legs) == Changes(it)
  }

  lemma {:induction false} FeasibleTravels(net: Snapshot, req: Request, it: Itinerary)
    requires Feasible(net, req, it)
    ensures Travels(net, req, LegsOf(req, it)) && Shows(req, it, LegsOf(req, it))
    decreases it
  {
    match it
    case Start =>
    case Walk(b, t) =>
      FeasibleTravels(net, req, b);
      TravelsMore(net, req, LegsOf(req, b), WalkLeg(t.from, t.to, Time(req, b), Time(req, b) + t.seconds));
    case Ride(b, c) =>
      FeasibleTravels(net, req, b);
      TravelsMore(net, req, LegsOf(req, b), RideLeg(c));
  }

  lemma WalkPresented(net: Snapshot, req: Request, b: Itinerary, front: seq<Leg>, leg: Leg) returns (it: Itinerary)
    requires Feasible(net, req, b) && LegsOf(req, b) == front && Shows(req, b, front)
    requires LegPossible(net, req, front, leg) && leg.WalkLeg?
    ensures Feasible(net, req, it) && LegsOf(req, it) == front + [leg]
  {
    var t :| t in net.transfers && t.from == leg.from && t.to == leg.to && leg.departure + t.seconds == leg.arrival;
    it := Walk(b, t);
  }

  lemma RidePresented(net: Snapshot, req: Request, b: Itinerary, front: seq<Leg>, leg: Leg) returns (it: Itinerary)
    requires Feasible(net, req, b) && LegsOf(req, b) == front && Shows(req, b, front)
    requires LegPossible(net, req, front, leg) && leg.RideLeg?
    ensures Feasible(net, req, it) && LegsOf(req, it) == front + [leg]
  {
    it := Ride(b, leg.connection);
  }

  lemma {:induction false} TravelsFeasible(net: Snapshot, req: Request, legs: seq<Leg>) returns (it: Itinerary)
    requires Travels(net, req, legs)
    ensures Feasible(net, req, it) && LegsOf(req, it) == legs && Shows(req, it, legs)
  {
    hide LegPossible, Travels, Feasible, Shows;
    if |legs| == 0 {
      it := Start;
      NothingShown(net, req);
    } else {
      var front, leg := legs[..|legs| - 1], legs[|legs| - 1];
      assert legs == front + [leg];
      TravelsMore(net, req, front, leg);
      var b := TravelsFeasible(net, req, front);
      if leg.WalkLeg? {
        it := WalkPresented(net, req, b, front, leg);
      } else {
        it := RidePresented(net, req, b, front, leg);
      }
      FeasibleTravels(net, req, it);
    }
  }

  lemma NothingShown(net: Snapshot, req: Request)
    ensures Feasible(net, req, Start) && LegsOf(req, Start) == [] && Shows(req, Start, [])
  {
  }

  /** The legs of feasible itineraries are exactly those that can be travelled. */
  lemma TravelsExactly(net: Snapshot, req: Request, legs: seq<Leg>)
    ensures Travels(net, req, legs) <==> exists it :: Feasible(net, req, it) && LegsOf(req, it) == legs
  {
    if Travels(net, req, legs) {
      var it := TravelsFeasible(net, req, legs);
    }
    if it :| Feasible(net, req, it) && LegsOf(req, it) == legs {
      FeasibleTravels(net, req, it);
    }
  }

  lemma JourneyKept(net: Snapshot, req: Request, it: Itinerary, j: Journey)
    requires Presents(net, req, it, j)
    ensures Kept(net, req, j)
  {
    FeasibleTravels(net, req, it);
  }

  /** The answer arrives no later than the legs. */
  predicate AsEarly(req: Request, journeys: seq<Journey>, legs: seq<Leg>) {
    |journeys| == 1 && journeys[0].arrival <= ReachedAt(req, legs)
  }

  /** Answering every itinerary to the target is answering all legs that lead there. */
  lemma AnswersLegs(net: Snapshot, req: Request, journeys: seq<Journey>)
    requires forall it :: Feasible(net, req, it) && End(req, it) == req.target ==>
               |journeys| == 1 && journeys[0].arrival <= Time(req, it)
    ensures forall legs :: Travels(net, req, legs) && Place(req, legs) == req.target ==> AsEarly(req, journeys, legs)
  {
    forall legs | Travels(net, req, legs) && Place(req, legs) == req.target
      ensures AsEarly(req, journeys, legs)
    {
      var it := TravelsFeasible(net, req, legs);
    }
  }
}
