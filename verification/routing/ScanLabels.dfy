/** The labels of the connection scan as a function of the network and the request, and what holds of them. */
module ScanLabels {
  import opened Machine
  import opened Sorting
  import opened Network
  import opened Grouping
  import opened ScanItineraries

  /** The labels so far, and whether the transfer limit has refused an improvement of them. */
  datatype Scan = Scan(labels: map<Id, Label>, limited: bool)

  function InitialScan(req: Request): Scan {
    Scan(map[req.origin := Label(req.departure, 0, [])], false)
  }

  /** The stop has a label no later than `time`. */
  predicate KnownBy(labels: map<Id, Label>, stop: Id, time: nat) {
    stop in labels && labels[stop].arrival <= time
  }

  /** A label is offered for a stop: refused when its changes exceed the limit, taken when it is an improvement. */
  function Offered(req: Request, s: Scan, to: Id, offer: Label): Scan {
    if KnownBy(s.labels, to, offer.arrival) then s
    else if offer.transfers > req.maxTransfers then s.(limited := true)
    else s.(labels := s.labels[to := offer])
  }

  function WalkOffer(known: Label, t: Transfer): Label {
    Label(known.arrival + t.seconds, known.transfers + 1,
          known.legs + [WalkLeg(t.from, t.to, known.arrival, known.arrival + t.seconds)])
  }

  function RideOffer(known: Label, c: Connection): Label {
    Label(c.arrival, if known.legs == [] then 0 else known.transfers + 1, known.legs + [RideLeg(c)])
  }

  function AfterWalk(req: Request, s: Scan, t: Transfer): Scan {
    if t.from in s.labels then Offered(req, s, t.to, WalkOffer(s.labels[t.from], t)) else s
  }

  /** One pass over the transfers. */
  function AfterPass(req: Request, s: Scan, transfers: seq<Transfer>): Scan {
    if |transfers| == 0 then s
    else AfterWalk(req, AfterPass(req, s, transfers[..|transfers| - 1]), transfers[|transfers| - 1])
  }

  /** Passes over the transfers until one changes no label. */
  function Walked(net: Snapshot, req: Request, s: Scan): Scan
    decreases Unlabelled(s.labels, WalkTargets(net.transfers)), TotalArrival(s.labels, WalkTargets(net.transfers))
  {
    var next := AfterPass(req, s, net.transfers);
    if next.labels == s.labels then next
    else
      TargetsListed(net.transfers);
      PassProgress(req, s, net.transfers, WalkTargets(net.transfers));
      Walked(net, req, next)
  }

  predicate CanCatch(req: Request, labels: map<Id, Label>, c: Connection) {
    Allowed(req, c) && KnownBy(labels, c.from, c.departure)
  }

  function AfterRide(req: Request, s: Scan, c: Connection): Scan {
    if CanCatch(req, s.labels, c) then Offered(req, s, c.to, RideOffer(s.labels[c.from], c)) else s
  }

  /** One connection, and the walks it opens. */
  function AfterConnection(net: Snapshot, req: Request, s: Scan, c: Connection): Scan {
    var ridden := AfterRide(req, s, c);
    if ridden.labels == s.labels then ridden else Walked(net, req, ridden)
  }

  function AfterConnections(net: Snapshot, req: Request, s: Scan, connections: seq<Connection>): Scan {
    if |connections| == 0 then s
    else
      var last := |connections| - 1;
      AfterConnection(net, req, AfterConnections(net, req, s, connections[..last]), connections[last])
  }

  /** The whole scan: the walks from the origin, then the connections in order of departure. */
  function Scanned(net: Snapshot, req: Request): Scan {
    AfterConnections(net, req, Walked(net, req, InitialScan(req)), Sort(net.connections, ByDeparture))
  }

  // ---------------------------------------------------------------- the measure of the walking loop

  function WalkTargets(transfers: seq<Transfer>): seq<Id> {
    seq(|transfers|, i requires 0 <= i < |transfers| => transfers[i].to)
  }

  function Unlabelled(labels: map<Id, Label>, ids: seq<Id>): nat {
    if |ids| == 0 then 0 else (if ids[0] in labels then 0 else 1) + Unlabelled(labels, ids[1..])
  }

  function TotalArrival(labels: map<Id, Label>, ids: seq<Id>): nat {
    if |ids| == 0 then 0
    else (if ids[0] in labels then labels[ids[0]].arrival else 0) + TotalArrival(labels, ids[1..])
  }

  lemma TargetsListed(transfers: seq<Transfer>)
    ensures forall t :: t in transfers ==> t.to in WalkTargets(transfers)
  {
    forall t | t in transfers
      ensures t.to in WalkTargets(transfers)
    {
      var i :| 0 <= i < |transfers| && transfers[i] == t;
      assert WalkTargets(transfers)[i] == t.to;
    }
  }

  /** More of the listed stops are labelled, or as many and earlier. */
  ghost predicate Closer(labels: map<Id, Label>, before: map<Id, Label>, ids: seq<Id>) {
    || Unlabelled(labels, ids) < Unlabelled(before, ids)
    || (Unlabelled(labels, ids) == Unlabelled(before, ids) && TotalArrival(labels, ids) < TotalArrival(before, ids))
  }

  /** Labelling a listed stop for the first time, or earlier than before, makes progress. */
  lemma {:induction false} LabelProgress(labels: map<Id, Label>, ids: seq<Id>, s: Id, known: Label)
    requires s in labels ==> known.arrival < labels[s].arrival
    ensures var later := labels[s := known];
            && Unlabelled(later, ids) <= Unlabelled(labels, ids)
            && (s in labels ==> Unlabelled(later, ids) == Unlabelled(labels, ids)
                                && TotalArrival(later, ids) <= TotalArrival(labels, ids))
            && (s in ids && s !in labels ==> Unlabelled(later, ids) < Unlabelled(labels, ids))
            && (s in ids && s in labels ==> TotalArrival(later, ids) < TotalArrival(labels, ids))
  {
    if |ids| > 0 {
      LabelProgress(labels, ids[1..], s, known);
      assert s in ids <==> s == ids[0] || s in ids[1..];
    }
  }

  /** A pass over transfers to listed stops changes nothing or makes progress. */
  lemma {:induction false} PassProgress(req: Request, s: Scan, transfers: seq<Transfer>, ids: seq<Id>)
    requires forall t :: t in transfers ==> t.to in ids
    ensures var after := AfterPass(req, s, transfers);
            after.labels == s.labels || Closer(after.labels, s.labels, ids)
  {
    if |transfers| > 0 {
      var front, t := transfers[..|transfers| - 1], transfers[|transfers| - 1];
      assert t in transfers && forall u :: u in front ==> u in transfers;
      PassProgress(req, s, front, ids);
      WalkProgress(req, AfterPass(req, s, front), t, ids);
    }
  }

  lemma WalkProgress(req: Request, s: Scan, t: Transfer, ids: seq<Id>)
    requires t.to in ids
    ensures var after := AfterWalk(req, s, t);
            after.labels == s.labels || Closer(after.labels, s.labels, ids)
  {
    if t.from in s.labels {
      var offer := WalkOffer(s.labels[t.from], t);
      if !KnownBy(s.labels, t.to, offer.arrival) {
        LabelProgress(s.labels, ids, t.to, offer);
      }
    }
  }

  /** Progress cannot be undone. */
  lemma ProgressChanges(labels: map<Id, Label>, before: map<Id, Label>, ids: seq<Id>)
    requires Closer(labels, before, ids)
    ensures labels != before
  {
  }

  // ---------------------------------------------------------------- every label stands for an itinerary

  /** Whatever itinerary the label of `from` stands for, the move can follow it and then has the offered label. */
  ghost predicate Fits(net: Snapshot, req: Request, labels: map<Id, Label>, from: Id, move: Move, to: Id, offer: Label) {
    from in labels
    && forall it :: StandsFor(net, req, labels, from, it) ==>
         && Feasible(net, req, Step(it, move)) && End(req, Step(it, move)) == to
         && offer == Label(Time(req, Step(it, move)), Changes(Step(it, move)), LegsOf(req, Step(it, move)))
  }

  lemma WalkFits(net: Snapshot, req: Request, labels: map<Id, Label>, t: Transfer)
    requires t in net.transfers && t.from in labels
    ensures Fits(net, req, labels, t.from, OnFoot(t), t.to, WalkOffer(labels[t.from], t))
  {
  }

  lemma RideFits(net: Snapshot, req: Request, labels: map<Id, Label>, c: Connection)
    requires c in net.connections && CanCatch(req, labels, c)
    ensures Fits(net, req, labels, c.from, Aboard(c), c.to, RideOffer(labels[c.from], c))
  {
  }

  lemma OfferSound(net: Snapshot, req: Request, s: Scan, from: Id, move: Move, to: Id, offer: Label)
    requires Sound(net, req, s.labels) && Fits(net, req, s.labels, from, move, to, offer)
    ensures var after := Offered(req, s, to, offer);
            && Sound(net, req, after.labels) && Improves(after.labels, s.labels)
            && (s.limited ==> after.limited)
  {
    if !KnownBy(s.labels, to, offer.arrival) && offer.transfers <= req.maxTransfers {
      var it :| StandsFor(net, req, s.labels, from, it);
      assert Improvement(net, req, s.labels, it, move);
      ImprovementSound(net, req, s.labels, it, move);
    }
  }

  // ---------------------------------------------------------------- what the scan leaves closed

  /** A move to `to` at `time` improves nothing, unless the limit refused it. */
  predicate Settled(req: Request, s: Scan, to: Id, time: nat, changes: nat) {
    KnownBy(s.labels, to, time) || (changes > req.maxTransfers && s.limited)
  }

  predicate WalkTaken(req: Request, s: Scan, t: Transfer) {
    t.from in s.labels ==>
      var offer := WalkOffer(s.labels[t.from], t); Settled(req, s, t.to, offer.arrival, offer.transfers)
  }

  predicate RideTaken(req: Request, s: Scan, c: Connection) {
    CanCatch(req, s.labels, c) ==>
      var offer := RideOffer(s.labels[c.from], c); Settled(req, s, c.to, offer.arrival, offer.transfers)
  }

  ghost predicate WalksDone(net: Snapshot, req: Request, s: Scan) {
    forall t :: t in net.transfers ==> WalkTaken(req, s, t)
  }

  ghost predicate RidesTaken(req: Request, s: Scan, connections: seq<Connection>) {
    forall c :: c in connections ==> RideTaken(req, s, c)
  }

  /** No walk and no ride improves any label, except those the limit refused. */
  ghost predicate Closed(net: Snapshot, req: Request, s: Scan) {
    KnownBy(s.labels, req.origin, req.departure) && WalksDone(net, req, s) && RidesTaken(req, s, net.connections)
  }

  /** `s` has come after `before`. */
  ghost predicate Later(s: Scan, before: Scan) {
    Improves(s.labels, before.labels) && (before.limited ==> s.limited)
  }

  /** Labels that differ from `before` are no earlier than `floor`. */
  ghost predicate OnlyLater(labels: map<Id, Label>, before: map<Id, Label>, floor: nat) {
    forall s :: s in labels ==> (s in before && labels[s] == before[s]) || labels[s].arrival >= floor
  }

  /** Walks from labels before `floor` have been taken. */
  ghost predicate WalksTakenBefore(net: Snapshot, req: Request, s: Scan, floor: nat) {
    forall t :: t in net.transfers && t.from in s.labels && s.labels[t.from].arrival < floor ==> WalkTaken(req, s, t)
  }

  /** What walking keeps, relative to the scan `before` it. */
  ghost predicate Relaxing(net: Snapshot, req: Request, s: Scan, before: Scan, floor: nat) {
    && Sound(net, req, s.labels) && Later(s, before)
    && OnlyLater(s.labels, before.labels, floor) && WalksTakenBefore(net, req, s, floor)
  }

  /** An improvement no earlier than `floor` opens no walk from before `floor`. */
  lemma OfferKeepsWalks(net: Snapshot, req: Request, s: Scan, to: Id, offer: Label, floor: nat)
    requires WalksTakenBefore(net, req, s, floor)
    requires KnownBy(s.labels, to, offer.arrival) || offer.transfers > req.maxTransfers || offer.arrival >= floor
    ensures WalksTakenBefore(net, req, Offered(req, s, to, offer), floor)
  {
    var after := Offered(req, s, to, offer);
    forall t | t in net.transfers && t.from in after.labels && after.labels[t.from].arrival < floor
      ensures WalkTaken(req, after, t)
    {
      assert WalkTaken(req, s, t);
    }
  }

  lemma WalkKeepsRelaxing(net: Snapshot, req: Request, s: Scan, t: Transfer, before: Scan, floor: nat)
    requires Relaxing(net, req, s, before, floor) && t in net.transfers
    ensures Relaxing(net, req, AfterWalk(req, s, t), before, floor)
  {
    if t.from in s.labels {
      var offer := WalkOffer(s.labels[t.from], t);
      WalkFits(net, req, s.labels, t);
      OfferSound(net, req, s, t.from, OnFoot(t), t.to, offer);
      hide Sound, Fits;
      assert s.labels[t.from].arrival < floor ==> WalkTaken(req, s, t);
      OfferKeepsWalks(net, req, s, t.to, offer, floor);
      hide WalksTakenBefore;
    }
  }

  lemma {:induction false} PassKeepsRelaxing(net: Snapshot, req: Request, s: Scan, transfers: seq<Transfer>,
                                             before: Scan, floor: nat)
    requires Relaxing(net, req, s, before, floor) && forall t :: t in transfers ==> t in net.transfers
    ensures Relaxing(net, req, AfterPass(req, s, transfers), before, floor)
  {
    hide Relaxing;
    if |transfers| > 0 {
      var front, t := transfers[..|transfers| - 1], transfers[|transfers| - 1];
      assert t in transfers && forall u :: u in front ==> u in transfers;
      PassKeepsRelaxing(net, req, s, front, before, floor);
      WalkKeepsRelaxing(net, req, AfterPass(req, s, front), t, before, floor);
    }
  }

  /** A pass that changes no label has settled every transfer. */
  lemma {:induction false} PassSettles(req: Request, s: Scan, transfers: seq<Transfer>, ids: seq<Id>)
    requires forall t :: t in transfers ==> t.to in ids
    requires AfterPass(req, s, transfers).labels == s.labels
    ensures forall t :: t in transfers ==> WalkTaken(req, AfterPass(req, s, transfers), t)
  {
    if |transfers| > 0 {
      var front, t := transfers[..|transfers| - 1], transfers[|transfers| - 1];
      assert t in transfers && transfers == front + [t];
      assert forall u :: u in front ==> u in transfers;
      var middle := AfterPass(req, s, front);
      PassProgress(req, s, front, ids);
      WalkProgress(req, middle, t, ids);
      assert middle.labels == s.labels by {
        if Closer(middle.labels, s.labels, ids) {
          ProgressChanges(AfterWalk(req, middle, t).labels, s.labels, ids);
        }
      }
      PassSettles(req, s, front, ids);
      hide AfterPass;
      forall u | u in front
        ensures WalkTaken(req, AfterWalk(req, middle, t), u)
      {
        assert WalkTaken(req, middle, u);
      }
    }
  }

  lemma {:induction false} WalkedRelaxes(net: Snapshot, req: Request, s: Scan, before: Scan, floor: nat)
    requires Relaxing(net, req, s, before, floor)
    ensures Relaxing(net, req, Walked(net, req, s), before, floor) && WalksDone(net, req, Walked(net, req, s))
    decreases Unlabelled(s.labels, WalkTargets(net.transfers)), TotalArrival(s.labels, WalkTargets(net.transfers))
  {
    hide Relaxing;
    var ids := WalkTargets(net.transfers);
    var next := AfterPass(req, s, net.transfers);
    PassKeepsRelaxing(net, req, s, net.transfers, before, floor);
    TargetsListed(net.transfers);
    if next.labels == s.labels {
      PassSettles(req, s, net.transfers, ids);
    } else {
      PassProgress(req, s, net.transfers, ids);
      WalkedRelaxes(net, req, next, before, floor);
    }
  }

  // ---------------------------------------------------------------- one connection

  /** What holds between two connections of the scan. */
  ghost predicate Between(net: Snapshot, req: Request, s: Scan, done: seq<Connection>) {
    && Sound(net, req, s.labels) && KnownBy(s.labels, req.origin, req.departure) && WalksDone(net, req, s)
    && (StrictlyForward(net.connections) ==> RidesTaken(req, s, done))
  }

  /** A refused offer or a label set by riding `c` leaves the connections before it taken. */
  lemma RidesStay(net: Snapshot, req: Request, s: Scan, later: Scan, done: seq<Connection>, c: Connection)
    requires StrictlyForward(net.connections) && c in net.connections
    requires RidesTaken(req, s, done) && forall d :: d in done ==> d.departure <= c.departure
    requires Later(later, s) && OnlyLater(later.labels, s.labels, c.arrival)
    requires CanCatch(req, s.labels, c) ==>
               var offer := RideOffer(s.labels[c.from], c); Settled(req, later, c.to, offer.arrival, offer.transfers)
    ensures RidesTaken(req, later, done + [c])
  {
    forall d | d in done + [c]
      ensures RideTaken(req, later, d)
    {
      if CanCatch(req, later.labels, d) {
        assert d.from in s.labels && later.labels[d.from] == s.labels[d.from];
        assert d in done ==> RideTaken(req, s, d);
      }
    }
  }

  lemma RideOffered(net: Snapshot, req: Request, s: Scan, c: Connection)
    requires Sound(net, req, s.labels) && WalksDone(net, req, s) && c in net.connections
    ensures var after := AfterRide(req, s, c);
            && Sound(net, req, after.labels) && Later(after, s) && OnlyLater(after.labels, s.labels, c.arrival)
            && WalksTakenBefore(net, req, after, c.arrival) && (after.labels == s.labels ==> WalksDone(net, req, after))
            && (CanCatch(req, s.labels, c) ==>
                  var offer := RideOffer(s.labels[c.from], c); Settled(req, after, c.to, offer.arrival, offer.transfers))
  {
    assert WalksTakenBefore(net, req, s, c.arrival);
    if CanCatch(req, s.labels, c) {
      var offer := RideOffer(s.labels[c.from], c);
      RideFits(net, req, s.labels, c);
      OfferSound(net, req, s, c.from, Aboard(c), c.to, offer);
      hide Sound, Fits;
      OfferKeepsWalks(net, req, s, c.to, offer, c.arrival);
      hide WalksTakenBefore;
      forall t | t in net.transfers && Offered(req, s, c.to, offer).labels == s.labels
        ensures WalkTaken(req, Offered(req, s, c.to, offer), t)
      {
        assert WalkTaken(req, s, t);
      }
    }
  }

  lemma SettledStays(req: Request, s: Scan, later: Scan, to: Id, time: nat, changes: nat)
    requires Settled(req, s, to, time, changes) && Later(later, s)
    ensures Settled(req, later, to, time, changes)
  {
  }

  lemma ConnectionKeepsBetween(net: Snapshot, req: Request, s: Scan, done: seq<Connection>, c: Connection)
    requires Between(net, req, s, done) && c in net.connections && forall d :: d in done ==> d.departure <= c.departure
    ensures Between(net, req, AfterConnection(net, req, s, c), done + [c])
  {
    var ridden, after := AfterRide(req, s, c), AfterConnection(net, req, s, c);
    RideOffered(net, req, s, c);
    hide Sound, WalksTakenBefore, AfterRide, WalksDone;
    if ridden.labels != s.labels {
      assert Relaxing(net, req, ridden, ridden, c.arrival);
      WalkedRelaxes(net, req, ridden, ridden, c.arrival);
    }
    LaterChain(s, ridden, after, c.arrival);
    if CanCatch(req, s.labels, c) {
      var offer := RideOffer(s.labels[c.from], c);
      SettledStays(req, ridden, after, c.to, offer.arrival, offer.transfers);
    }
    if StrictlyForward(net.connections) {
      hide Settled, RidesTaken, OnlyLater, Later;
      RidesStay(net, req, s, after, done, c);
    }
  }

  lemma LaterChain(s: Scan, middle: Scan, later: Scan, floor: nat)
    requires Later(middle, s) && OnlyLater(middle.labels, s.labels, floor)
    requires middle == later || (Later(later, middle) && OnlyLater(later.labels, middle.labels, floor))
    ensures Later(later, s) && OnlyLater(later.labels, s.labels, floor)
    ensures Later(later, middle)
    ensures forall stop, time :: KnownBy(s.labels, stop, time) ==> KnownBy(later.labels, stop, time)
  {
  }

  // ---------------------------------------------------------------- the whole scan

  lemma {:induction false} AllConnections(net: Snapshot, req: Request, connections: seq<Connection>)
    requires SortedBy(connections, ByDeparture) && forall c :: c in connections ==> c in net.connections
    ensures Between(net, req, AfterConnections(net, req, Walked(net, req, InitialScan(req)), connections), connections)
  {
    hide Between, AfterConnection, Walked;
    if |connections| == 0 {
      Opening(net, req);
    } else {
      var front, c := connections[..|connections| - 1], connections[|connections| - 1];
      assert connections == front + [c] && c in connections;
      assert forall d :: d in front ==> d in connections && ByDeparture(d, c);
      AllConnections(net, req, front);
      ConnectionKeepsBetween(net, req, AfterConnections(net, req, Walked(net, req, InitialScan(req)), front), front, c);
    }
  }

  lemma Opening(net: Snapshot, req: Request)
    ensures Between(net, req, Walked(net, req, InitialScan(req)), [])
  {
    var s := InitialScan(req);
    assert StandsFor(net, req, s.labels, req.origin, Start);
    assert Relaxing(net, req, s, s, 0);
    hide Sound, WalksDone, Walked;
    WalkedRelaxes(net, req, s, s, 0);
    assert KnownBy(s.labels, req.origin, req.departure);
  }

  /** Every final label stands for a feasible itinerary within the limit; and when connections run strictly forward, no
      move improves a final label, except one the limit refused. */
  lemma ScannedClosed(net: Snapshot, req: Request)
    ensures Sound(net, req, Scanned(net, req).labels)
    ensures StrictlyForward(net.connections) ==> Closed(net, req, Scanned(net, req))
  {
    var connections := Sort(net.connections, ByDeparture);
    ByDepartureTotal();
    SortSorts(net.connections, ByDeparture);
    SameMembers(connections, net.connections);
    hide Sound, WalksDone, Sort, TotalPreorder, Walked, AfterConnections;
    AllConnections(net, req, connections);
  }

  lemma ByDepartureTotal()
    ensures TotalPreorder(ByDeparture)
  {
  }

  // ---------------------------------------------------------------- optimality

  /** A walk from a label improves its target but exceeds the limit. */
  predicate WalkRefused(req: Request, labels: map<Id, Label>, t: Transfer) {
    && t.from in labels
    && var offer := WalkOffer(labels[t.from], t);
       offer.transfers > req.maxTransfers && !KnownBy(labels, t.to, offer.arrival)
  }

  predicate RideRefused(req: Request, labels: map<Id, Label>, c: Connection) {
    && CanCatch(req, labels, c)
    && var offer := RideOffer(labels[c.from], c);
       offer.transfers > req.maxTransfers && !KnownBy(labels, c.to, offer.arrival)
  }

  /** The limit, and nothing else, keeps some label from improving. */
  ghost predicate LimitRefuses(net: Snapshot, req: Request, labels: map<Id, Label>) {
    || (exists t :: t in net.transfers && WalkRefused(req, labels, t))
    || (exists c :: c in net.connections && RideRefused(req, labels, c))
  }

  /** The label of its last stop is no later than the itinerary. */
  predicate Answers(req: Request, labels: map<Id, Label>, it: Itinerary) {
    KnownBy(labels, End(req, it), Time(req, it))
  }

  ghost predicate Optimal(net: Snapshot, req: Request, labels: map<Id, Label>) {
    forall it :: Feasible(net, req, it) ==> Answers(req, labels, it)
  }

  /** A limit that never refused an improvement during the scan keeps none from happening. */
  lemma RefusalNoticed(net: Snapshot, req: Request, s: Scan)
    requires Closed(net, req, s) && LimitRefuses(net, req, s.labels)
    ensures s.limited
  {
    if t :| t in net.transfers && WalkRefused(req, s.labels, t) {
      assert WalkTaken(req, s, t);
    } else {
      var c :| c in net.connections && RideRefused(req, s.labels, c);
      assert RideTaken(req, s, c);
    }
  }

  lemma {:induction false} UnlimitedAnswers(net: Snapshot, req: Request, s: Scan, it: Itinerary)
    requires Closed(net, req, s) && !LimitRefuses(net, req, s.labels) && Feasible(net, req, it)
    ensures Answers(req, s.labels, it)
    decreases it
  {
    match it
    case Start =>
    case Walk(b, t) =>
      UnlimitedAnswers(net, req, s, b);
      assert WalkTaken(req, s, t) && !WalkRefused(req, s.labels, t);
    case Ride(b, c) =>
      UnlimitedAnswers(net, req, s, b);
      assert RideTaken(req, s, c) && !RideRefused(req, s.labels, c);
  }

  /** A refused move is the end of a feasible itinerary that beats its label. */
  lemma RefusedBeats(net: Snapshot, req: Request, labels: map<Id, Label>)
    requires Sound(net, req, labels) && LimitRefuses(net, req, labels)
    ensures !Optimal(net, req, labels)
  {
    if t :| t in net.transfers && WalkRefused(req, labels, t) {
      var x :| StandsFor(net, req, labels, t.from, x);
      WalkFits(net, req, labels, t);
      assert Feasible(net, req, Step(x, OnFoot(t))) && !Answers(req, labels, Step(x, OnFoot(t)));
    } else {
      var c :| c in net.connections && RideRefused(req, labels, c);
      var x :| StandsFor(net, req, labels, c.from, x);
      RideFits(net, req, labels, c);
      assert Feasible(net, req, Step(x, Aboard(c))) && !Answers(req, labels, Step(x, Aboard(c)));
    }
  }

  /** When connections run strictly forward: every final label is the earliest arrival at its stop, and stops without a
      label cannot be reached, exactly if no move from a final label that would improve another exceeds the limit. */
  lemma OptimalExactly(net: Snapshot, req: Request)
    requires StrictlyForward(net.connections)
    ensures var labels := Scanned(net, req).labels; Optimal(net, req, labels) <==> !LimitRefuses(net, req, labels)
    ensures LimitRefuses(net, req, Scanned(net, req).labels) ==> Scanned(net, req).limited
  {
    var s := Scanned(net, req);
    ScannedClosed(net, req);
    hide Sound, Closed, Scanned;
    if LimitRefuses(net, req, s.labels) {
      RefusedBeats(net, req, s.labels);
      RefusalNoticed(net, req, s);
    } else {
      hide LimitRefuses;
      forall it | Feasible(net, req, it)
        ensures Answers(req, s.labels, it)
      {
        UnlimitedAnswers(net, req, s, it);
      }
    }
  }

  /** Where the next move of an itinerary that the limit does not hinder leads, there is a label no later. */
  lemma NextAnswered(net: Snapshot, req: Request, s: Scan, before: Itinerary, move: Move)
    requires StrictlyForward(net.connections) && Sound(net, req, s.labels) && Closed(net, req, s)
    requires Feasible(net, req, Step(before, move)) && MoveAdmitted(net, req, before, move)
    requires Answers(req, s.labels, before)
    ensures Answers(req, s.labels, Step(before, move))
  {
    var x :| StandsFor(net, req, s.labels, End(req, before), x);
    var to := End(req, Step(before, move));
    if to in Touched(req, x) {
      TouchedEarlier(net, req, s.labels, x, to);
    } else {
      assert Rival(net, req, before, move, x);
      match move
      case OnFoot(t) =>
        WalkFits(net, req, s.labels, t);
        assert WalkTaken(req, s, t);
      case Aboard(c) =>
        RideFits(net, req, s.labels, c);
        assert RideTaken(req, s, c);
    }
  }

  /** Even when the limit refuses something, no label is later than an itinerary that it does not hinder. */
  lemma {:induction false} ClosedIsOptimal(net: Snapshot, req: Request, s: Scan, it: Itinerary)
    requires StrictlyForward(net.connections) && Sound(net, req, s.labels) && Closed(net, req, s)
    requires Feasible(net, req, it) && Unhindered(net, req, it)
    ensures Answers(req, s.labels, it)
    decreases it
  {
    hide Sound, MoveAdmitted;
    match it
    case Start =>
    case Walk(b, t) =>
      ClosedIsOptimal(net, req, s, b);
      NextAnswered(net, req, s, b, OnFoot(t));
    case Ride(b, c) =>
      ClosedIsOptimal(net, req, s, b);
      NextAnswered(net, req, s, b, Aboard(c));
  }
}
