/** What can be travelled on a network of single connections and walks, and what a label of the scan stands for. */
module ScanItineraries {
  import opened Machine
  import opened Network
  import opened Grouping

  datatype Connection = Connection(tripId: Id, routeId: Id, from: Id, to: Id, departure: nat, arrival: nat, mode: Mode)

  datatype Request = Request(origin: Id, target: Id, departure: nat, maxTransfers: nat, modes: set<Mode>)

  datatype Leg = WalkLeg(from: Id, to: Id, departure: nat, arrival: nat) | RideLeg(connection: Connection)

  datatype Label = Label(arrival: nat, transfers: nat, legs: seq<Leg>)

  datatype Journey = Journey(legs: seq<Leg>, departure: nat, arrival: nat, duration: nat, transferCount: nat)

  datatype Snapshot = Snapshot(connections: seq<Connection>, transfers: seq<Transfer>)

  predicate Allowed(req: Request, c: Connection) {
    req.modes == {} || c.mode in req.modes
  }

  predicate ByDeparture(x: Connection, y: Connection) {
    x.departure <= y.departure
  }

  ghost predicate StrictlyForward(connections: seq<Connection>) {
    forall c :: c in connections ==> c.departure < c.arrival
  }

  // ---------------------------------------------------------------- what can be travelled

  datatype Itinerary = Start | Walk(before: Itinerary, transfer: Transfer) | Ride(before: Itinerary, connection: Connection)

  function End(req: Request, it: Itinerary): Id {
    match it
    case Start => req.origin
    case Walk(_, t) => t.to
    case Ride(_, c) => c.to
  }

  function Time(req: Request, it: Itinerary): nat {
    match it
    case Start => req.departure
    case Walk(b, t) => Time(req, b) + t.seconds
    case Ride(_, c) => c.arrival
  }

  predicate Feasible(net: Snapshot, req: Request, it: Itinerary) {
    match it
    case Start => true
    case Walk(b, t) => Feasible(net, req, b) && t in net.transfers && t.from == End(req, b)
    case Ride(b, c) =>
      && Feasible(net, req, b) && c in net.connections && Allowed(req, c)
      && c.from == End(req, b) && Time(req, b) <= c.departure
  }

  /** Changes as the scan counts them: every leg after the first. A walk counts even when it comes first. */
  function Changes(it: Itinerary): nat {
    match it
    case Start => 0
    case Walk(b, _) => Changes(b) + 1
    case Ride(b, _) => if b.Start? then 0 else Changes(b) + 1
  }

  function LegsOf(req: Request, it: Itinerary): seq<Leg> {
    match it
    case Start => []
    case Walk(b, t) => LegsOf(req, b) + [WalkLeg(t.from, t.to, Time(req, b), Time(req, b) + t.seconds)]
    case Ride(b, c) => LegsOf(req, b) + [RideLeg(c)]
  }

  /** The stops an itinerary touches. */
  function Touched(req: Request, it: Itinerary): set<Id> {
    match it
    case Start => {req.origin}
    case Walk(b, t) => Touched(req, b) + {t.to}
    case Ride(b, c) => Touched(req, b) + {c.to}
  }

  predicate NoStopTwice(req: Request, it: Itinerary) {
    match it
    case Start => true
    case Walk(b, t) => NoStopTwice(req, b) && t.to !in Touched(req, b)
    case Ride(b, c) => NoStopTwice(req, b) && c.to !in Touched(req, b)
  }

  /** Every stop that can get a label. */
  function Stops(net: Snapshot, req: Request): set<Id> {
    {req.origin} + (set t | t in net.transfers :: t.to) + (set c | c in net.connections :: c.to)
  }

  lemma {:induction false} ChangesBounded(net: Snapshot, req: Request, it: Itinerary)
    requires Feasible(net, req, it) && NoStopTwice(req, it)
    ensures Touched(req, it) <= Stops(net, req) && Changes(it) + 1 <= |Touched(req, it)|
    decreases it
  {
    match it
    case Start =>
    case Walk(b, t) => ChangesBounded(net, req, b);
    case Ride(b, c) => ChangesBounded(net, req, b);
  }

  // ---------------------------------------------------------------- labels

  /** Each stop the itinerary touches has a label no later than the itinerary gets there. */
  ghost predicate Dominated(req: Request, labels: map<Id, Label>, it: Itinerary) {
    && End(req, it) in labels && labels[End(req, it)].arrival <= Time(req, it)
    && match it
       case Start => true
       case Walk(b, _) => Dominated(req, labels, b)
       case Ride(b, _) => Dominated(req, labels, b)
  }

  /** The itinerary a label stands for. */
  ghost predicate StandsFor(net: Snapshot, req: Request, labels: map<Id, Label>, stop: Id, it: Itinerary)
    requires stop in labels
  {
    && Feasible(net, req, it) && End(req, it) == stop
    && labels[stop] == Label(Time(req, it), Changes(it), LegsOf(req, it))
    && Changes(it) <= req.maxTransfers
    && Dominated(req, labels, it)
    && (StrictlyForward(net.connections) ==> NoStopTwice(req, it))
  }

  ghost predicate Sound(net: Snapshot, req: Request, labels: map<Id, Label>) {
    && req.origin in labels
    && forall s :: s in labels ==> exists it :: StandsFor(net, req, labels, s, it)
  }

  /** Labels only improve. */
  ghost predicate Improves(later: map<Id, Label>, labels: map<Id, Label>) {
    forall s :: s in labels ==> s in later && later[s].arrival <= labels[s].arrival
  }

  lemma {:induction false} DominatedStays(req: Request, labels: map<Id, Label>, later: map<Id, Label>, it: Itinerary)
    requires Dominated(req, labels, it) && Improves(later, labels)
    ensures Dominated(req, later, it)
    decreases it
  {
    match it
    case Start =>
    case Walk(b, _) => DominatedStays(req, labels, later, b);
    case Ride(b, _) => DominatedStays(req, labels, later, b);
  }

  /** A touched stop was labelled by the time the itinerary ends. */
  lemma {:induction false} TouchedEarlier(net: Snapshot, req: Request, labels: map<Id, Label>, it: Itinerary, s: Id)
    requires StrictlyForward(net.connections) && Feasible(net, req, it) && Dominated(req, labels, it)
    requires s in Touched(req, it)
    ensures s in labels && labels[s].arrival <= Time(req, it)
    decreases it
  {
    match it
    case Start =>
    case Walk(b, t) => if s != t.to { TouchedEarlier(net, req, labels, b, s); }
    case Ride(b, c) => if s != c.to { TouchedEarlier(net, req, labels, b, s); }
  }

  function Step(it: Itinerary, move: Move): Itinerary {
    match move
    case OnFoot(t) => Walk(it, t)
    case Aboard(c) => Ride(it, c)
  }

  datatype Move = OnFoot(transfer: Transfer) | Aboard(connection: Connection)

  /** A label that improves on what is known, reached by one more move from a labelled stop. */
  ghost predicate Improvement(net: Snapshot, req: Request, labels: map<Id, Label>, before: Itinerary, move: Move) {
    && End(req, before) in labels && StandsFor(net, req, labels, End(req, before), before)
    && var it := Step(before, move);
       && Feasible(net, req, it)
       && (End(req, it) !in labels || Time(req, it) < labels[End(req, it)].arrival)
  }

  /** An improvement never comes back to a stop it has touched. */
  lemma ImprovementIsNew(net: Snapshot, req: Request, labels: map<Id, Label>, before: Itinerary, move: Move)
    requires Improvement(net, req, labels, before, move) && StrictlyForward(net.connections)
    ensures NoStopTwice(req, Step(before, move))
  {
    var it := Step(before, move);
    if End(req, it) in Touched(req, before) {
      TouchedEarlier(net, req, labels, before, End(req, it));
    }
  }

  /** Taking an improvement within the transfer limit keeps every label sound. */
  lemma ImprovementSound(net: Snapshot, req: Request, labels: map<Id, Label>, before: Itinerary, move: Move)
    requires Sound(net, req, labels) && Improvement(net, req, labels, before, move)
    requires Changes(Step(before, move)) <= req.maxTransfers
    ensures var it := Step(before, move);
            var later := labels[End(req, it) := Label(Time(req, it), Changes(it), LegsOf(req, it))];
            Sound(net, req, later) && Improves(later, labels)
  {
    var it := Step(before, move);
    var later := labels[End(req, it) := Label(Time(req, it), Changes(it), LegsOf(req, it))];
    DominatedStays(req, labels, later, before);
    if StrictlyForward(net.connections) {
      ImprovementIsNew(net, req, labels, before, move);
    }
    assert StandsFor(net, req, later, End(req, it), it);
    forall s | s in later
      ensures exists x :: StandsFor(net, req, later, s, x)
    {
      if s != End(req, it) {
        var x :| StandsFor(net, req, labels, s, x);
        DominatedStays(req, labels, later, x);
        assert StandsFor(net, req, later, s, x);
      }
    }
  }

  // ---------------------------------------------------------------- itineraries the transfer limit leaves alone

  /** `x` gets to where `before` ends, no later and within the transfer limit, and can go on with `move` to a new stop. */
  ghost predicate Rival(net: Snapshot, req: Request, before: Itinerary, move: Move, x: Itinerary) {
    && Feasible(net, req, x) && End(req, x) == End(req, before) && Time(req, x) <= Time(req, before)
    && Changes(x) <= req.maxTransfers && NoStopTwice(req, Step(x, move))
  }

  ghost predicate MoveAdmitted(net: Snapshot, req: Request, before: Itinerary, move: Move) {
    forall x :: Rival(net, req, before, move, x) ==> Changes(Step(x, move)) <= req.maxTransfers
  }

  /** Whoever gets to an intermediate stop no later than the itinerary may still make its next move. */
  ghost predicate Unhindered(net: Snapshot, req: Request, it: Itinerary) {
    match it
    case Start => true
    case Walk(b, t) => Unhindered(net, req, b) && MoveAdmitted(net, req, b, OnFoot(t))
    case Ride(b, c) => Unhindered(net, req, b) && MoveAdmitted(net, req, b, Aboard(c))
  }

  /** Every feasible itinerary without a repeated stop is within the transfer limit. */
  ghost predicate NothingTooLong(net: Snapshot, req: Request) {
    forall it :: Feasible(net, req, it) && NoStopTwice(req, it) ==> Changes(it) <= req.maxTransfers
  }

  lemma {:induction false} NothingTooLongUnhindered(net: Snapshot, req: Request, it: Itinerary)
    requires NothingTooLong(net, req) && Feasible(net, req, it)
    ensures Unhindered(net, req, it)
    decreases it
  {
    match it
    case Start =>
    case Walk(b, t) =>
      NothingTooLongUnhindered(net, req, b);
      MoveWithinLimit(net, req, b, OnFoot(t));
    case Ride(b, c) =>
      NothingTooLongUnhindered(net, req, b);
      MoveWithinLimit(net, req, b, Aboard(c));
  }

  lemma MoveWithinLimit(net: Snapshot, req: Request, before: Itinerary, move: Move)
    requires NothingTooLong(net, req) && Feasible(net, req, Step(before, move))
    ensures MoveAdmitted(net, req, before, move)
  {
    forall x | Rival(net, req, before, move, x)
      ensures Changes(Step(x, move)) <= req.maxTransfers
    {
      assert Feasible(net, req, Step(x, move));
    }
  }

  /** Nothing is too long when there are no more stops than rides allowed. */
  lemma FewStops(net: Snapshot, req: Request)
    requires |Stops(net, req)| <= req.maxTransfers + 1
    ensures NothingTooLong(net, req)
  {
    forall it | Feasible(net, req, it) && NoStopTwice(req, it)
      ensures Changes(it) <= req.maxTransfers
    {
      ChangesBounded(net, req, it);
      SubsetSize(Touched(req, it), Stops(net, req));
    }
  }

  // ---------------------------------------------------------------- journeys

  function JourneyDeparture(req: Request, legs: seq<Leg>): nat {
    if |legs| == 0 then req.departure
    else match legs[0]
      case WalkLeg(_, _, departure, _) => departure
      case RideLeg(c) => c.departure
  }

  /** The journey that presents an itinerary. */
  function Present(req: Request, it: Itinerary): Journey {
    var legs := LegsOf(req, it);
    var departure := JourneyDeparture(req, legs);
    Journey(legs, departure, Time(req, it), if Time(req, it) < departure then 0 else Time(req, it) - departure, Changes(it))
  }

  /** The itinerary leads to the target within the transfer limit, and the journey presents it. */
  ghost predicate Presents(net: Snapshot, req: Request, it: Itinerary, j: Journey) {
    Feasible(net, req, it) && End(req, it) == req.target && Changes(it) <= req.maxTransfers && j == Present(req, it)
  }
}
