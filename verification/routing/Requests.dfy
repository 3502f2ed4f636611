/** From a request that names stops to a query on dense stop indices, and back to named stops in the answer. */
module Requests {
  import opened Machine
  import opened Sorting
  import opened Network
  import opened Realtime
  import opened Grouping
  import opened RouteBuilding
  import opened Itineraries
  import opened Alignment
  import opened LegLaws
  import opened RaptorJourneys

  datatype Request = Request(
    fromStops: seq<Id>,
    toStops: seq<Id>,
    extraTransfers: seq<Transfer>,
    departure: U32,
    maxTransfers: nat,
    minTransfer: U32,
    buffer: U32,
    modes: set<Mode>,
    allowUnverified: bool,
    realtime: RealtimeData,
    excluded: set<Id>)

  // ---------------------------------------------------------------- resolving stops

  /** The stops of the timetable with those that only the request knows after them. */
  class Resolver {
    const tt: Timetable
    const timetableIndices: map<Id, nat>
    var requestStops: seq<Id>
    var requestIndices: map<Id, nat>

    ghost function Names(): seq<Id>
      reads this
    {
      tt.stops + requestStops
    }

    /** Every known stop has one index, and no two the same. */
    ghost predicate Valid()
      reads this
    {
      && Indexed(tt.stops, timetableIndices)
      && (forall id :: id in requestIndices ==>
            && id !in timetableIndices
            && |tt.stops| <= requestIndices[id] < |Names()| && Names()[requestIndices[id]] == id)
      && (forall i :: 0 <= i < |requestStops| ==>
            && requestStops[i] !in timetableIndices
            && requestStops[i] in requestIndices && requestIndices[requestStops[i]] == |tt.stops| + i)
    }

    constructor (tt: Timetable, timetableIndices: map<Id, nat>)
      requires Indexed(tt.stops, timetableIndices)
      ensures Valid() && Names() == tt.stops && this.tt == tt
    {
      this.tt, this.timetableIndices := tt, timetableIndices;
      requestStops, requestIndices := [], map[];
    }

    method Resolve(id: Id) returns (index: nat)
      requires Valid()
      modifies this
      ensures Valid() && old(Names()) <= Names()
      ensures index < |Names()| && Names()[index] == id
    {
      if id in timetableIndices {
        return timetableIndices[id];
      }
      if id in requestIndices {
        return requestIndices[id];
      }
      index := |tt.stops| + |requestStops|;
      requestIndices := requestIndices[id := index];
      requestStops := requestStops + [id];
    }

    method ResolveAll(ids: seq<Id>) returns (indices: seq<nat>)
      requires Valid()
      modifies this
      ensures Valid() && old(Names()) <= Names()
      ensures Named(Names(), indices, ids)
    {
      indices := [];
      for n := 0 to |ids|
        invariant Valid() && old(Names()) <= Names()
        invariant Named(Names(), indices, ids[..n])
      {
        hide Resolver.Valid, Named;
        ghost var known := Names();
        var index := Resolve(ids[n]);
        NamedMore(known, Names(), indices, ids, n, index);
        indices := indices + [index];
      }
      assert ids[..|ids|] == ids;
    }

    /** The link of one transfer, after those of the transfers `done`. */
    method ResolveTransfer(transfer: Transfer, links: map<nat, seq<Link>>, ghost done: seq<Transfer>)
        returns (added: map<nat, seq<Link>>)
      requires Valid() && LinksOf(Names(), done, links)
      modifies this
      ensures Valid() && old(Names()) <= Names()
      ensures LinksOf(Names(), done + [transfer], added)
    {
      hide Resolver.Valid, LinksOf;
      ghost var known := Names();
      var from := Resolve(transfer.from);
      ghost var middle := Names();
      var to := Resolve(transfer.to);
      StillNamed(middle, Names(), [from], [transfer.from]);
      LinksStayNamed(known, Names(), done, links);
      LinkAdded(Names(), done, links, transfer, from, to);
      added := links[from := (if from in links then links[from] else []) + [Link(to, transfer.seconds)]];
    }

    /** The walking links of the request, by the stop they leave. */
    method ResolveTransfers(transfers: seq<Transfer>) returns (links: map<nat, seq<Link>>)
      requires Valid()
      modifies this
      ensures Valid() && old(Names()) <= Names()
      ensures LinksOf(Names(), transfers, links)
    {
      links := map[];
      for n := 0 to |transfers|
        invariant Valid() && old(Names()) <= Names()
        invariant LinksOf(Names(), transfers[..n], links)
      {
        hide LinksOf;
        assert transfers[..n + 1] == transfers[..n] + [transfers[n]];
        links := ResolveTransfer(transfers[n], links, transfers[..n]);
      }
      assert transfers[..|transfers|] == transfers;
    }
  }

  ghost predicate Named(names: seq<Id>, indices: seq<nat>, ids: seq<Id>) {
    |indices| == |ids| && forall n :: 0 <= n < |ids| ==> indices[n] < |names| && names[indices[n]] == ids[n]
  }

  /** `link` at `from` is the transfer between the stops of those names. */
  ghost predicate LinkIs(names: seq<Id>, from: nat, link: Link, transfer: Transfer) {
    && from < |names| && link.to < |names|
    && transfer == Transfer(names[from], names[link.to], link.seconds)
  }

  ghost predicate HasLink(names: seq<Id>, links: map<nat, seq<Link>>, transfer: Transfer) {
    exists from, link :: from in links && link in links[from] && LinkIs(names, from, link, transfer)
  }

  ghost predicate IsTransfer(names: seq<Id>, transfers: seq<Transfer>, from: nat, link: Link) {
    exists transfer :: transfer in transfers && LinkIs(names, from, link, transfer)
  }

  /** The links are the transfers, and only those. */
  ghost predicate LinksOf(names: seq<Id>, transfers: seq<Transfer>, links: map<nat, seq<Link>>) {
    && (forall from, link :: from in links && link in links[from] ==> IsTransfer(names, transfers, from, link))
    && (forall transfer :: transfer in transfers ==> HasLink(names, links, transfer))
  }

  lemma LinksStayNamed(names: seq<Id>, more: seq<Id>, transfers: seq<Transfer>, links: map<nat, seq<Link>>)
    requires names <= more && LinksOf(names, transfers, links)
    ensures LinksOf(more, transfers, links)
  {
    assert forall i :: 0 <= i < |names| ==> names[i] == more[i];
    forall from, link | from in links && link in links[from]
      ensures IsTransfer(more, transfers, from, link)
    {
      assert IsTransfer(names, transfers, from, link);
      var transfer :| transfer in transfers && LinkIs(names, from, link, transfer);
      assert LinkIs(more, from, link, transfer);
    }
    forall transfer | transfer in transfers
      ensures HasLink(more, links, transfer)
    {
      var from, link :| from in links && link in links[from] && LinkIs(names, from, link, transfer);
      assert LinkIs(more, from, link, transfer);
    }
  }

  lemma LinkAdded(names: seq<Id>, transfers: seq<Transfer>, links: map<nat, seq<Link>>, transfer: Transfer, from: nat,
                  to: nat)
    requires LinksOf(names, transfers, links) && LinkIs(names, from, Link(to, transfer.seconds), transfer)
    ensures LinksOf(names, transfers + [transfer],
                    links[from := (if from in links then links[from] else []) + [Link(to, transfer.seconds)]])
  {
    var added := links[from := (if from in links then links[from] else []) + [Link(to, transfer.seconds)]];
    forall f, link | f in added && link in added[f]
      ensures IsTransfer(names, transfers + [transfer], f, link)
    {
      if f in links && link in links[f] {
        assert IsTransfer(names, transfers, f, link);
        var t :| t in transfers && LinkIs(names, f, link, t);
        assert t in transfers + [transfer];
      } else {
        assert transfer in transfers + [transfer];
      }
    }
    forall t | t in transfers + [transfer]
      ensures HasLink(names, added, t)
    {
      if t in transfers {
        var f, link :| f in links && link in links[f] && LinkIs(names, f, link, t);
        assert link in added[f];
      } else {
        assert Link(to, transfer.seconds) in added[from];
      }
    }
  }

  // ---------------------------------------------------------------- the query

  predicate Increasing(x: nat, y: nat) {
    x <= y
  }

  function Dedup(xs: seq<nat>): (r: seq<nat>)
    ensures forall x :: x in r <==> x in xs
  {
    if |xs| == 0 then []
    else
      var front := Dedup(xs[..|xs| - 1]);
      assert forall x :: x in xs <==> x in xs[..|xs| - 1] || x == xs[|xs| - 1];
      if |front| > 0 && front[|front| - 1] == xs[|xs| - 1] then front else front + [xs[|xs| - 1]]
  }

  /** The query asks what the request asks, stop by stop. */
  ghost predicate Asks(q: Query, w: Request) {
    var names := q.tt.stops + q.extraStops;
    && q.stopCount == |names|
    && (forall a, b :: 0 <= a < b < |names| ==> names[a] != names[b])
    && Named(names, q.origins, w.fromStops)
    && (forall s: nat :: s in q.targets <==> s < |names| && names[s] in w.toStops)
    && LinksOf(names, w.extraTransfers, q.extraLinks)
    && SameTerms(q, w)
  }

  predicate SameTerms(q: Query, w: Request) {
    && q.realtime == w.realtime && q.departure == w.departure && q.maxTransfers == w.maxTransfers
    && q.minTransfer == w.minTransfer && q.buffer == w.buffer && q.modes == w.modes
    && q.allowUnverified == w.allowUnverified && q.excluded == w.excluded
  }

  lemma NamesDistinct(r: Resolver)
    requires r.Valid()
    ensures forall a, b :: 0 <= a < b < |r.Names()| ==> r.Names()[a] != r.Names()[b]
  {
    var n := |r.tt.stops|;
    forall a, b | 0 <= a < b < |r.Names()|
      ensures r.Names()[a] != r.Names()[b]
    {
      if b < n {
        assert r.timetableIndices[r.tt.stops[a]] == a && r.timetableIndices[r.tt.stops[b]] == b;
      } else if a < n {
        assert r.requestStops[b - n] !in r.timetableIndices && r.tt.stops[a] in r.timetableIndices;
      } else {
        assert r.requestIndices[r.requestStops[a - n]] == a && r.requestIndices[r.requestStops[b - n]] == b;
      }
    }
  }

  lemma TargetsNamed(names: seq<Id>, indices: seq<nat>, ids: seq<Id>)
    requires Named(names, indices, ids) && forall a, b :: 0 <= a < b < |names| ==> names[a] != names[b]
    ensures forall s: nat :: s in indices <==> s < |names| && names[s] in ids
  {
    forall s: nat | s < |names| && names[s] in ids
      ensures s in indices
    {
      var n :| 0 <= n < |ids| && ids[n] == names[s];
      assert indices[n] == s;
    }
  }

  method Prepare(tt: Timetable, index: map<Id, nat>, w: Request) returns (q: Query)
    requires ValidTimetable(tt) && Indexed(tt.stops, index) && Consistent(w.realtime)
    ensures ValidQuery(q) && q.tt == tt && Asks(q, w)
  {
    var resolver := new Resolver(tt, index);
    hide ValidTimetable, Consistent, Indexed, Named, LinksOf;
    var origins := resolver.ResolveAll(w.fromStops);
    ghost var n1 := resolver.Names();
    var targets := resolver.ResolveAll(w.toStops);
    ghost var n2 := resolver.Names();
    var links := resolver.ResolveTransfers(w.extraTransfers);
    NamesDistinct(resolver);
    StillNamed(n1, resolver.Names(), origins, w.fromStops);
    StillNamed(n2, resolver.Names(), targets, w.toStops);
    q := Query(tt, w.realtime, resolver.requestStops, |tt.stops| + |resolver.requestStops|, origins,
               Dedup(Sort(targets, Increasing)), links, w.departure, w.maxTransfers, w.minTransfer, w.buffer, w.modes,
               w.allowUnverified, w.excluded);
    QueryAsks(q, w, targets);
  }

  lemma NamedMore(names: seq<Id>, more: seq<Id>, indices: seq<nat>, ids: seq<Id>, n: nat, index: nat)
    requires n < |ids| && Named(names, indices, ids[..n]) && names <= more
    requires index < |more| && more[index] == ids[n]
    ensures Named(more, indices + [index], ids[..n + 1])
  {
  }

  lemma StillNamed(names: seq<Id>, more: seq<Id>, indices: seq<nat>, ids: seq<Id>)
    requires Named(names, indices, ids) && names <= more
    ensures Named(more, indices, ids)
  {
  }

  lemma QueryAsks(q: Query, w: Request, targets: seq<nat>)
    requires ValidTimetable(q.tt) && Consistent(q.realtime) && SameTerms(q, w)
    requires var names := q.tt.stops + q.extraStops;
             && q.stopCount == |names| && (forall a, b :: 0 <= a < b < |names| ==> names[a] != names[b])
             && Named(names, q.origins, w.fromStops) && Named(names, targets, w.toStops)
             && LinksOf(names, w.extraTransfers, q.extraLinks)
    requires q.targets == Dedup(Sort(targets, Increasing))
    ensures ValidQuery(q) && Asks(q, w)
  {
    var names := q.tt.stops + q.extraStops;
    TargetsNamed(names, targets, w.toStops);
    TargetsKept(targets);
    LinksInRange(names, w.extraTransfers, q.extraLinks);
    hide ValidTimetable, Consistent, LinksOf, Dedup;
    forall s | s in q.origins
      ensures s < q.stopCount
    {
      var n :| 0 <= n < |q.origins| && q.origins[n] == s;
    }
  }

  lemma TargetsKept(targets: seq<nat>)
    ensures forall s :: s in Dedup(Sort(targets, Increasing)) <==> s in targets
  {
    SortSorts(targets, Increasing);
    assert forall s :: s in Sort(targets, Increasing) <==> s in multiset(Sort(targets, Increasing));
    assert forall s :: s in targets <==> s in multiset(targets);
  }

  lemma LinksInRange(names: seq<Id>, transfers: seq<Transfer>, links: map<nat, seq<Link>>)
    requires LinksOf(names, transfers, links)
    ensures forall s, l :: s in links && l in links[s] ==> l.to < |names|
  {
    forall s, l | s in links && l in links[s]
      ensures l.to < |names|
    {
      assert IsTransfer(names, transfers, s, l);
    }
  }

  // ---------------------------------------------------------------- connected legs

  /** The legs lead from one stop to the other without a break. */
  predicate Connected(legs: seq<Leg>, from: nat, to: nat) {
    if |legs| == 0 then from == to
    else
      && legs[0].from == from && legs[|legs| - 1].to == to
      && forall i :: 0 < i < |legs| ==> legs[i - 1].to == legs[i].from
  }

  function Origin(it: Itinerary): nat {
    match it
    case Start(o) => o
    case Extend(b, _) => Origin(b)
  }

  lemma {:induction false} LegsConnected(q: Query, it: Itinerary)
    requires Feasible(q, it)
    ensures Connected(LegsOf(q, it), Origin(it), End(q, it)) && Origin(it) in q.origins
    decreases it
  {
    match it
    case Start(_) =>
    case Extend(b, _) =>
      LegsConnected(q, b);
      var before := LegsOf(q, b);
      var legs := LegsOf(q, it);
      assert legs == before + [legs[|legs| - 1]];
      assert legs[|legs| - 1].from == End(q, b) && legs[|legs| - 1].to == End(q, it);
  }

  lemma AlignedConnected(legs: seq<Leg>, from: nat, to: nat)
    requires Connected(legs, from, to)
    ensures Connected(Aligned(legs), from, to) && |Aligned(legs)| == |legs|
  {
    if Alignable(legs) {
      var n := LeadingWalks(legs);
      LaidBeforeFits(legs[..n], legs[n].departure);
      var aligned := Aligned(legs);
      hide LaidBefore, Layable, Alignable, Connected;
      forall i | 0 <= i < |legs|
        ensures aligned[i].from == legs[i].from && aligned[i].to == legs[i].to
      {
        assert i >= n ==> aligned[i] == legs[i];
      }
      SameEnds(legs, aligned, from, to);
    }
  }

  lemma SameEnds(legs: seq<Leg>, others: seq<Leg>, from: nat, to: nat)
    requires Connected(legs, from, to) && |others| == |legs|
    requires forall i :: 0 <= i < |legs| ==> others[i].from == legs[i].from && others[i].to == legs[i].to
    ensures Connected(others, from, to)
  {
  }

  /** A journey found for a query is a chain of legs from a stop the request starts at to one it ends at. */
  ghost predicate Leads(q: Query, w: Request, j: Journey) {
    exists from, to :: Connected(j.legs, from, to) && |j.legs| > 0
                       && StopName(q, from) in w.fromStops && StopName(q, to) in w.toStops
  }

  lemma JourneyLeads(q: Query, w: Request, j: Journey)
    requires Asks(q, w) && IsJourney(q, j)
    ensures Leads(q, w, j)
  {
    var it :| Presents(q, it, j);
    LegsConnected(q, it);
    AlignedConnected(LegsOf(q, it), Origin(it), End(q, it));
    RidesHaveLegs(q, it);
    OriginNamed(q, w, Origin(it));
    hide Feasible, LegsOf, Origin, Aligned;
    assert Connected(j.legs, Origin(it), End(q, it));
    assert StopName(q, End(q, it)) in w.toStops;
  }

  lemma OriginNamed(q: Query, w: Request, s: nat)
    requires Asks(q, w) && s in q.origins
    ensures StopName(q, s) in w.fromStops
  {
    var n :| 0 <= n < |q.origins| && q.origins[n] == s;
    assert w.fromStops[n] in w.fromStops;
  }

  /** `raptor_with_stats_excluding_routes`, from the stops the request names to journeys between them. */
  method Search(tt: Timetable, index: map<Id, nat>, w: Request) returns (q: Query, journeys: seq<Journey>)
    requires ValidTimetable(tt) && Indexed(tt.stops, index) && Consistent(w.realtime)
    ensures Asks(q, w) && q.tt == tt
    ensures forall j :: j in journeys ==> Leads(q, w, j) && IsJourney(q, j) && j.transferCount <= w.maxTransfers
    ensures ParetoSorted(journeys)
    ensures forall it :: Robust(q, it) && RidesOrderlyRoutes(q, it) && WithinLimits(q, it) ==> Answered(q, journeys, it)
    ensures forall j :: j in journeys ==> Kept(q, j)
    ensures forall legs :: Travels(q, legs, true) && Wanted(q, legs) ==> AsGood(q, journeys, legs)
  {
    hide ValidTimetable, ValidQuery, IsJourney, Leads, ParetoSorted, Robust, RidesOrderlyRoutes, WithinLimits, Answered,
      Kept, Travels, Wanted, AsGood, Named, LinksOf;
    q := Prepare(tt, index, w);
    journeys := Raptor(q);
    hide Asks;
    forall j | j in journeys
      ensures Leads(q, w, j)
    {
      JourneyLeads(q, w, j);
    }
  }
}
