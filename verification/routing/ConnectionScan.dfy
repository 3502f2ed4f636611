/** The connection scan: earliest arrivals from one stop, by one pass over the connections in order of departure. */
module ConnectionScan {
  import opened Sorting
  import opened Network
  import opened Grouping
  import opened ScanItineraries
  import opened ScanLabels
  import opened ScanLaws

  class Scanner {
    const net: Snapshot
    const req: Request
    var labels: map<Id, Label>
    ghost var limited: bool  // the transfer limit has refused an improvement

    ghost function Now(): Scan
      reads this
    {
      Scan(labels, limited)
    }

    constructor (net: Snapshot, req: Request)
      ensures this.net == net && this.req == req && Now() == InitialScan(req)
    {
      this.net, this.req := net, req;
      labels := map[req.origin := Label(req.departure, 0, [])];
      limited := false;
    }

    /** A label is offered: the part the walking loop and the scan have in common. */
    method Offer(to: Id, offer: Label) returns (better: bool)
      modifies this
      ensures Now() == Offered(req, old(Now()), to, offer)
      ensures better <==> labels != old(labels)
    {
      limited := limited || (offer.transfers > req.maxTransfers && !KnownBy(labels, to, offer.arrival));
      if offer.transfers > req.maxTransfers {
        return false;
      }
      better := to !in labels || offer.arrival < labels[to].arrival;
      if better {
        labels := labels[to := offer];
        assert labels[to] == offer;
      }
    }

    /** `relax_walking_transfers` */
    method RelaxWalking()
      modifies this
      ensures Now() == Walked(net, req, old(Now()))
    {
      var changed := true;
      ghost var targets := WalkTargets(net.transfers);
      TargetsListed(net.transfers);
      while changed
        invariant changed ==> Walked(net, req, Now()) == Walked(net, req, old(Now()))
        invariant !changed ==> Now() == Walked(net, req, old(Now()))
        decreases Unlabelled(labels, targets), TotalArrival(labels, targets), if changed then 1 else 0
      {
        PassProgress(req, Now(), net.transfers, targets);
        changed := RelaxOnce();
      }
    }

    /** One transfer. */
    method TakeWalk(t: Transfer) returns (better: bool)
      modifies this
      ensures Now() == AfterWalk(req, old(Now()), t)
      ensures better <==> labels != old(labels)
    {
      if t.from !in labels {
        return false;
      }
      var current := labels[t.from];
      var arrival := current.arrival + t.seconds;
      better := Offer(t.to, Label(arrival, current.transfers + 1,
                                  current.legs + [WalkLeg(t.from, t.to, current.arrival, arrival)]));
    }

    /** One pass over the transfers. */
    method RelaxOnce() returns (changed: bool)
      modifies this
      ensures Now() == AfterPass(req, old(Now()), net.transfers)
      ensures changed <==> labels != old(labels)
    {
      hide Closer, AfterWalk, AfterPass, Unlabelled, TotalArrival;
      changed := false;
      ghost var targets := WalkTargets(net.transfers);
      TargetsListed(net.transfers);
      PassStart(req, Now());
      assert net.transfers[..0] == [];
      for n := 0 to |net.transfers|
        invariant Now() == AfterPass(req, old(Now()), net.transfers[..n])
        invariant if changed then Closer(labels, old(labels), targets) else labels == old(labels)
      {
        var t := net.transfers[n];
        ghost var was := labels;
        PassNext(req, old(Now()), net.transfers, n);
        WalkProgress(req, Now(), t, targets);
        var better := TakeWalk(t);
        if better {
          StillCloser(labels, was, old(labels), targets);
          changed := true;
        }
      }
      assert net.transfers[..|net.transfers|] == net.transfers;
      if changed {
        ProgressChanges(labels, old(labels), targets);
      }
    }

    /** One connection: board it if its stop was reached in time, then walk on from where it leads. */
    method ScanConnection(c: Connection)
      modifies this
      ensures Now() == AfterConnection(net, req, old(Now()), c)
    {
      if !Allowed(req, c) || c.from !in labels {
        return;
      }
      var current := labels[c.from];
      if current.arrival > c.departure {
        return;
      }
      var transfers := if current.legs == [] then 0 else current.transfers + 1;
      var better := Offer(c.to, Label(c.arrival, transfers, current.legs + [RideLeg(c)]));
      if better {
        RelaxWalking();
      }
    }
  }

  lemma PassStart(req: Request, s: Scan)
    ensures AfterPass(req, s, []) == s
  {
  }

  lemma PassNext(req: Request, s: Scan, transfers: seq<Transfer>, n: nat)
    requires n < |transfers|
    ensures AfterPass(req, s, transfers[..n + 1]) == AfterWalk(req, AfterPass(req, s, transfers[..n]), transfers[n])
    ensures transfers[n] in transfers
  {
    assert transfers[..n + 1][..n] == transfers[..n];
    hide AfterWalk;
  }

  lemma StillCloser(labels: map<Id, Label>, middle: map<Id, Label>, before: map<Id, Label>, ids: seq<Id>)
    requires Closer(labels, middle, ids) && (Closer(middle, before, ids) || middle == before)
    ensures Closer(labels, before, ids)
  {
  }

  /** The answer: the journey of the target's label. */
  function Answer(req: Request, labels: map<Id, Label>): seq<Journey> {
    if req.target !in labels then []
    else
      var best := labels[req.target];
      var departure := JourneyDeparture(req, best.legs);
      [Journey(best.legs, departure, best.arrival, if best.arrival < departure then 0 else best.arrival - departure,
               best.transfers)]
  }

  /** The answer arrives no later than the itinerary. */
  predicate NoLaterThan(req: Request, journeys: seq<Journey>, it: Itinerary) {
    |journeys| == 1 && journeys[0].arrival <= Time(req, it)
  }

  /** `earliest_arrivals`: the answer read off the labels of the scan. It is the journey of a feasible itinerary within
      the limit; when connections run strictly forward it is the minimum, and none means there is none, if the limit never
      refused an improvement, and it arrives no later than any itinerary that the limit does not hinder in any case. */
  method EarliestArrivals(net: Snapshot, req: Request) returns (journeys: seq<Journey>)
    ensures journeys == Answer(req, Scanned(net, req).labels)
    ensures |journeys| <= 1
    ensures |journeys| == 1 ==> exists it :: Presents(net, req, it, journeys[0])
    ensures forall j :: j in journeys ==> Kept(net, req, j)
    ensures StrictlyForward(net.connections) && !LimitRefuses(net, req, Scanned(net, req).labels) ==>
              forall legs :: Travels(net, req, legs) && Place(req, legs) == req.target ==> AsEarly(req, journeys, legs)
    ensures StrictlyForward(net.connections) && !LimitRefuses(net, req, Scanned(net, req).labels) ==>
              forall it :: Feasible(net, req, it) && End(req, it) == req.target ==> NoLaterThan(req, journeys, it)
    ensures StrictlyForward(net.connections) && !Scanned(net, req).limited ==>
              forall it :: Feasible(net, req, it) && End(req, it) == req.target ==> NoLaterThan(req, journeys, it)
    ensures StrictlyForward(net.connections) ==>
              forall it :: Feasible(net, req, it) && Unhindered(net, req, it) && End(req, it) == req.target ==>
                NoLaterThan(req, journeys, it)
    ensures StrictlyForward(net.connections) && NothingTooLong(net, req) ==>
              forall it :: Feasible(net, req, it) && End(req, it) == req.target ==> NoLaterThan(req, journeys, it)
  {
    var connections := Sort(net.connections, ByDeparture);
    var scanner := new Scanner(net, req);
    scanner.RelaxWalking();
    ghost var start := scanner.Now();
    for n := 0 to |connections|
      invariant fresh(scanner) && scanner.net == net && scanner.req == req
      invariant scanner.Now() == AfterConnections(net, req, start, connections[..n])
    {
      hide AfterConnection;
      assert connections[..n + 1][..n] == connections[..n];
      scanner.ScanConnection(connections[n]);
    }
    assert connections[..|connections|] == connections;
    journeys := Answer(req, scanner.labels);
    AnswerPresents(net, req);
    if StrictlyForward(net.connections) {
      AnswerOptimal(net, req);
      AnswerUnhindered(net, req);
      if !LimitRefuses(net, req, Scanned(net, req).labels) {
        AnswersLegs(net, req, journeys);
      }
    }
    if |journeys| == 1 {
      ghost var it :| Presents(net, req, it, journeys[0]);
      JourneyKept(net, req, it, journeys[0]);
    }
  }

  lemma AnswerPresents(net: Snapshot, req: Request)
    ensures var journeys := Answer(req, Scanned(net, req).labels);
            |journeys| == 1 ==> exists it :: Presents(net, req, it, journeys[0])
  {
    var labels := Scanned(net, req).labels;
    ScannedClosed(net, req);
    hide Scanned;
    if req.target in labels {
      var it :| StandsFor(net, req, labels, req.target, it);
      assert Presents(net, req, it, Answer(req, labels)[0]);
    }
  }

  lemma AnswerOptimal(net: Snapshot, req: Request)
    requires StrictlyForward(net.connections)
    ensures !Scanned(net, req).limited ==> !LimitRefuses(net, req, Scanned(net, req).labels)
    ensures !LimitRefuses(net, req, Scanned(net, req).labels) ==>
              forall it :: Feasible(net, req, it) && End(req, it) == req.target ==>
                NoLaterThan(req, Answer(req, Scanned(net, req).labels), it)
  {
    OptimalExactly(net, req);
    hide Scanned, LimitRefuses;
    if !LimitRefuses(net, req, Scanned(net, req).labels) {
      forall it | Feasible(net, req, it) && End(req, it) == req.target
        ensures NoLaterThan(req, Answer(req, Scanned(net, req).labels), it)
      {
        assert Answers(req, Scanned(net, req).labels, it);
      }
    }
  }

  lemma AnswerUnhindered(net: Snapshot, req: Request)
    requires StrictlyForward(net.connections)
    ensures forall it :: Feasible(net, req, it) && Unhindered(net, req, it) && End(req, it) == req.target ==>
              NoLaterThan(req, Answer(req, Scanned(net, req).labels), it)
    ensures NothingTooLong(net, req) ==>
              forall it :: Feasible(net, req, it) && End(req, it) == req.target ==>
                NoLaterThan(req, Answer(req, Scanned(net, req).labels), it)
  {
    var s := Scanned(net, req);
    ScannedClosed(net, req);
    hide Scanned, Sound, Closed, Unhindered, NothingTooLong;
    forall it | Feasible(net, req, it) && Unhindered(net, req, it) && End(req, it) == req.target
      ensures NoLaterThan(req, Answer(req, s.labels), it)
    {
      ClosedIsOptimal(net, req, s, it);
    }
    if NothingTooLong(net, req) {
      forall it | Feasible(net, req, it) && End(req, it) == req.target
        ensures NoLaterThan(req, Answer(req, s.labels), it)
      {
        NothingTooLongUnhindered(net, req, it);
      }
    }
  }

  // ---------------------------------------------------------------- what the transfer limit can hide

  /** The fast way to stop 2 takes a change at stop 1; the slow way is direct. */
  const FAST_FIRST: Connection := Connection(1, 1, 0, 1, 0, 1, 0)
  const SLOW: Connection := Connection(2, 2, 0, 2, 0, 5, 0)
  const FAST_SECOND: Connection := Connection(3, 3, 1, 2, 2, 3, 0)
  const ONWARD: Connection := Connection(4, 4, 2, 3, 6, 7, 0)
  const NARROW: Snapshot := Snapshot([FAST_FIRST, SLOW, FAST_SECOND, ONWARD], [])
  const ONE_CHANGE: Request := Request(0, 3, 0, 1, {})

  /** Four connections and one change allowed: the earlier label of stop 2 has used up the change, so stop 3 is not found
      although the slow way leads there with one change. */
  lemma LimitHides()
    ensures Answer(ONE_CHANGE, Scanned(NARROW, ONE_CHANGE).labels) == []
    ensures var it := Ride(Ride(Start, SLOW), ONWARD);
            && StrictlyForward(NARROW.connections) && Feasible(NARROW, ONE_CHANGE, it)
            && End(ONE_CHANGE, it) == ONE_CHANGE.target && Changes(it) <= ONE_CHANGE.maxTransfers
  {
    SlowWay();
    NarrowSorted();
    LabelsOfThree();
    var connections := NARROW.connections;
    var s := InitialScan(ONE_CHANGE);
    NarrowWalks(s);
    assert connections[..4] == connections && connections[..4][..3] == connections[..3];
    var three := AfterConnections(NARROW, ONE_CHANGE, s, connections[..3]);
    hide AfterConnections, Walked, Sort;
    NarrowStep(three, ONWARD);
    LastRefused(three);
    NextOf(s, connections, 3);
  }

  lemma NarrowSorted()
    ensures Sort(NARROW.connections, ByDeparture) == NARROW.connections
  {
    SortFixed(NARROW.connections, ByDeparture);
  }

  lemma SlowWay()
    ensures StrictlyForward(NARROW.connections)
    ensures Feasible(NARROW, ONE_CHANGE, Ride(Ride(Start, SLOW), ONWARD))
    ensures Changes(Ride(Ride(Start, SLOW), ONWARD)) == 1
  {
    var direct := Ride(Start, SLOW);
    assert NARROW.connections[1] == SLOW && SLOW in NARROW.connections;
    assert NARROW.connections[3] == ONWARD && ONWARD in NARROW.connections;
    assert Feasible(NARROW, ONE_CHANGE, Start);
    assert End(ONE_CHANGE, Start) == 0 == SLOW.from && Time(ONE_CHANGE, Start) == 0 <= SLOW.departure;
    assert Allowed(ONE_CHANGE, SLOW) && Allowed(ONE_CHANGE, ONWARD);
    assert Feasible(NARROW, ONE_CHANGE, direct);
    assert End(ONE_CHANGE, direct) == 2 == ONWARD.from && Time(ONE_CHANGE, direct) == 5 <= ONWARD.departure;
    assert Changes(direct) == 0;
  }

  lemma NarrowWalks(s: Scan)
    ensures Walked(NARROW, ONE_CHANGE, s) == s
  {
    assert AfterPass(ONE_CHANGE, s, []) == s;
  }

  lemma NarrowStep(s: Scan, c: Connection)
    ensures AfterConnection(NARROW, ONE_CHANGE, s, c) == AfterRide(ONE_CHANGE, s, c)
  {
    NarrowWalks(AfterRide(ONE_CHANGE, s, c));
    hide Walked;
  }

  lemma NextOf(s: Scan, connections: seq<Connection>, n: nat)
    requires n < |connections|
    ensures AfterConnections(NARROW, ONE_CHANGE, s, connections[..n + 1])
         == AfterConnection(NARROW, ONE_CHANGE, AfterConnections(NARROW, ONE_CHANGE, s, connections[..n]), connections[n])
  {
    assert connections[..n + 1][..n] == connections[..n];
    hide AfterConnection;
  }

  /** After three connections stop 2 has the label that used up the change. */
  lemma LabelsOfThree()
    ensures SpentAtTwo(AfterConnections(NARROW, ONE_CHANGE, InitialScan(ONE_CHANGE), NARROW.connections[..3]))
  {
    var s, connections := InitialScan(ONE_CHANGE), NARROW.connections;
    var zero := AfterConnections(NARROW, ONE_CHANGE, s, connections[..0]);
    assert connections[..0] == [] && zero == s;
    hide AfterConnections, AfterConnection, Walked;
    NextOf(s, connections, 0);
    NextOf(s, connections, 1);
    NextOf(s, connections, 2);
    NarrowStep(s, FAST_FIRST);
    var one := AfterRide(ONE_CHANGE, s, FAST_FIRST);
    NarrowStep(one, SLOW);
    var two := AfterRide(ONE_CHANGE, one, SLOW);
    NarrowStep(two, FAST_SECOND);
    hide AfterRide;
    FirstRide(s, one);
    SecondRide(one, two);
    ThirdRide(two, AfterRide(ONE_CHANGE, two, FAST_SECOND));
  }

  predicate SpentAtTwo(s: Scan) {
    && 3 !in s.labels && 2 in s.labels
    && s.labels[2].arrival == 3 && s.labels[2].transfers == 1 && s.labels[2].legs != []
  }

  predicate ReachedOne(s: Scan) {
    && 1 in s.labels && 3 !in s.labels
    && s.labels[1].arrival == 1 && s.labels[1].transfers == 0 && s.labels[1].legs != []
  }

  lemma FirstRide(s: Scan, after: Scan)
    requires s == InitialScan(ONE_CHANGE) && after == AfterRide(ONE_CHANGE, s, FAST_FIRST)
    ensures ReachedOne(after) && 0 in after.labels && after.labels[0] == Label(0, 0, []) && 2 !in after.labels
  {
  }

  lemma SecondRide(s: Scan, after: Scan)
    requires ReachedOne(s) && 0 in s.labels && s.labels[0] == Label(0, 0, []) && 2 !in s.labels
    requires after == AfterRide(ONE_CHANGE, s, SLOW)
    ensures ReachedOne(after) && 2 in after.labels && after.labels[2].arrival == 5
  {
  }

  lemma ThirdRide(s: Scan, after: Scan)
    requires ReachedOne(s) && 2 in s.labels && s.labels[2].arrival == 5
    requires after == AfterRide(ONE_CHANGE, s, FAST_SECOND)
    ensures SpentAtTwo(after)
  {
  }

  lemma LastRefused(s: Scan)
    requires SpentAtTwo(s)
    ensures 3 !in AfterRide(ONE_CHANGE, s, ONWARD).labels
  {
  }
}
