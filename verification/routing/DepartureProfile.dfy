/** `departure_times_from_stops`: the departure times worth asking the router about within a window. */
module DepartureProfile {
  import opened Machine
  import opened Sorting
  import opened Network
  import opened Realtime
  import opened Grouping
  import opened RouteBuilding

  datatype Request = Request(
    tt: Timetable,
    stopIndices: map<Id, nat>,
    stopIds: seq<Id>,
    access: seq<Transfer>,
    departure: U32,
    window: U32,
    maxDepartures: nat,
    modes: set<Mode>,
    allowUnverified: bool)

  ghost predicate ValidRequest(p: Request) {
    ValidTimetable(p.tt) && Indexed(p.tt.stops, p.stopIndices)
  }

  // ---------------------------------------------------------------- access times

  predicate Requested(p: Request, n: nat, stop: nat) {
    n < |p.stopIds| && p.stopIds[n] in p.stopIndices && p.stopIndices[p.stopIds[n]] == stop
  }

  predicate Linked(p: Request, n: nat, stop: nat, seconds: U32) {
    && n < |p.access| && p.access[n].from in p.stopIds
    && p.access[n].to in p.stopIndices && p.stopIndices[p.access[n].to] == stop
    && p.access[n].seconds == seconds
  }

  /** Within the first `stops` requested stops and the first `links` transfers, `seconds` is a way to reach `stop`. */
  ghost predicate Offers(p: Request, stops: nat, links: nat, stop: nat, seconds: U32) {
    || (seconds == 0 && exists n: nat :: n < stops && Requested(p, n, stop))
    || (exists n: nat :: n < links && Linked(p, n, stop, seconds))
  }

  /** `known` holds the least access time of each stop that can be reached. */
  ghost predicate LeastAccess(p: Request, stops: nat, links: nat, known: map<nat, U32>) {
    && (forall stop :: stop in known ==> Offers(p, stops, links, stop, known[stop]))
    && (forall stop: nat, seconds: U32 :: Offers(p, stops, links, stop, seconds) ==> KnownWithin(known, stop, seconds))
  }

  predicate KnownWithin(known: map<nat, U32>, stop: nat, seconds: U32) {
    stop in known && known[stop] <= seconds
  }

  method RequestedStops(p: Request) returns (known: map<nat, U32>)
    ensures LeastAccess(p, |p.stopIds|, 0, known)
  {
    known := map[];
    for n := 0 to |p.stopIds|
      invariant LeastAccess(p, n, 0, known)
    {
      ghost var before := known;
      if p.stopIds[n] in p.stopIndices {
        known := known[p.stopIndices[p.stopIds[n]] := 0];
      }
      RequestedGrows(p, n, before, known);
    }
  }

  lemma RequestedGrows(p: Request, n: nat, before: map<nat, U32>, known: map<nat, U32>)
    requires n < |p.stopIds| && LeastAccess(p, n, 0, before)
    requires known == if p.stopIds[n] in p.stopIndices then before[p.stopIndices[p.stopIds[n]] := 0] else before
    ensures LeastAccess(p, n + 1, 0, known)
  {
    forall stop: nat, seconds: U32 | Offers(p, n + 1, 0, stop, seconds)
      ensures KnownWithin(known, stop, seconds)
    {
      var m: nat :| m < n + 1 && Requested(p, m, stop);
      assert m < n ==> Offers(p, n, 0, stop, 0);
    }
    forall stop | stop in known
      ensures Offers(p, n + 1, 0, stop, known[stop])
    {
      assert Offers(p, n, 0, stop, known[stop]) || Requested(p, n, stop);
    }
  }

  lemma LeastAccessGrows(p: Request, n: nat, before: map<nat, U32>, known: map<nat, U32>)
    requires n < |p.access| && LeastAccess(p, |p.stopIds|, n, before)
    requires var transfer := p.access[n];
             if transfer.from in p.stopIds && transfer.to in p.stopIndices then
               var stop := p.stopIndices[transfer.to];
               known == before[stop := if stop in before then Min(before[stop], transfer.seconds) else transfer.seconds]
             else known == before
    ensures LeastAccess(p, |p.stopIds|, n + 1, known)
  {
    forall stop: nat, seconds: U32 | Offers(p, |p.stopIds|, n + 1, stop, seconds)
      ensures KnownWithin(known, stop, seconds)
    {
      if !Offers(p, |p.stopIds|, n, stop, seconds) {
        var m: nat :| m < n + 1 && Linked(p, m, stop, seconds);
        assert m == n;
      }
    }
    forall stop | stop in known
      ensures Offers(p, |p.stopIds|, n + 1, stop, known[stop])
    {
      assert Offers(p, |p.stopIds|, n, stop, known[stop]) || Linked(p, n, stop, known[stop]);
    }
  }

  method AccessSeconds(p: Request) returns (known: map<nat, U32>)
    ensures LeastAccess(p, |p.stopIds|, |p.access|, known)
  {
    known := RequestedStops(p);
    for n := 0 to |p.access|
      invariant LeastAccess(p, |p.stopIds|, n, known)
    {
      ghost var before := known;
      hide LeastAccess;
      var transfer := p.access[n];
      if transfer.from in p.stopIds && transfer.to in p.stopIndices {
        var stop := p.stopIndices[transfer.to];
        known := known[stop := if stop in known then Min(known[stop], transfer.seconds) else transfer.seconds];
      }
      LeastAccessGrows(p, n, before, known);
    }
  }

  // ---------------------------------------------------------------- departures in the window

  predicate Considered(p: Request, r: nat, t: nat) {
    && r < |p.tt.routes| && t < |p.tt.routes[r].trips|
    && (p.modes == {} || p.tt.routes[r].trips[0].mode in p.modes)
    && (p.allowUnverified || p.tt.routes[r].trips[t].verified)
  }

  predicate Departs(p: Request, r: nat, i: nat, t: nat) {
    Considered(p, r, t) && i < |p.tt.routes[r].trips[t].stopTimes| && p.tt.routes[r].trips[t].stopTimes[i].pickup
  }

  function DepartureOf(p: Request, r: nat, i: nat, t: nat): U32
    requires Departs(p, r, i, t)
  {
    p.tt.routes[r].trips[t].stopTimes[i].departure
  }

  /** A vehicle that leaves at `vehicle` from a stop `seconds` away serves the window. */
  predicate InWindow(p: Request, seconds: U32, vehicle: U32) {
    SatAdd(p.departure, seconds) <= vehicle <= SatAdd(SatAdd(p.departure, p.window), seconds)
  }

  /** Leaving at `x` catches trip `t` at position `i` of route `r`, reached after `seconds`. */
  ghost predicate Catches(p: Request, r: nat, i: nat, t: nat, seconds: U32, x: U32) {
    Departs(p, r, i, t) && InWindow(p, seconds, DepartureOf(p, r, i, t)) && x == SatSub(DepartureOf(p, r, i, t), seconds)
  }

  ghost predicate CatchesSome(p: Request, r: nat, i: nat, indices: seq<nat>, seconds: U32, x: U32) {
    exists t :: t in indices && Catches(p, r, i, t, seconds, x)
  }

  function Lists(p: Request, r: nat): seq<seq<nat>>
    requires r < |p.tt.routes|
  {
    if p.allowUnverified then p.tt.routes[r].departures else p.tt.routes[r].verifiedDepartures
  }

  ghost predicate CatchesVisit(p: Request, visit: (nat, nat), seconds: U32, x: U32) {
    exists t :: Catches(p, visit.0, visit.1, t, seconds, x)
  }

  method FromVisit(p: Request, r: nat, i: nat, seconds: U32, known: set<U32>) returns (selected: set<U32>)
    requires ValidTimetable(p.tt) && r < |p.tt.routes| && i < |p.tt.routes[r].stopIndices|
    ensures forall x: U32 :: x in selected <==> x in known || CatchesVisit(p, (r, i), seconds, x)
  {
    assert ValidRoute(p.tt, r);
    selected := known;
    var trips := p.tt.routes[r].trips;
    if p.modes != {} && trips[0].mode !in p.modes {
      return;
    }
    var indices := Lists(p, r)[i];
    assert forall t :: Considered(p, r, t) ==> t in indices;
    assert forall n :: 0 <= n < |indices| ==> indices[n] in indices && Considered(p, r, indices[n]);
    selected := FromList(p, r, i, indices, seconds, known);
  }

  /** The listed trips that leave in the window. */
  method FromList(p: Request, r: nat, i: nat, indices: seq<nat>, seconds: U32, known: set<U32>)
      returns (selected: set<U32>)
    requires r < |p.tt.routes|
    requires ListedAt(p.tt.routes[r].trips, indices, i) && SortedByDeparture(p.tt.routes[r].trips, indices, i)
    requires forall t :: Considered(p, r, t) <==> t in indices
    ensures forall x: U32 :: x in selected <==> x in known || CatchesVisit(p, (r, i), seconds, x)
  {
    selected := known;
    var trips := p.tt.routes[r].trips;
    var first := FirstDepartureFrom(trips, indices, i, SatAdd(p.departure, seconds));
    var latest := SatAdd(SatAdd(p.departure, p.window), seconds);
    assert forall m :: 0 <= m < first ==> !InWindow(p, seconds, trips[indices[m]].stopTimes[i].departure);
    for n := first to |indices|
      invariant forall x: U32 :: x in selected <==> x in known || CatchesSome(p, r, i, indices[..n], seconds, x)
    {
      assert indices[n] in indices;
      var departs := trips[indices[n]].stopTimes[i];
      if departs.departure > latest {
        assert forall m :: n <= m < |indices| ==> trips[indices[m]].stopTimes[i].departure > latest;
        NoneLater(p, r, i, indices, n, seconds);
        return;
      }
      if departs.pickup {
        selected := selected + {SatSub(departs.departure, seconds)};
      }
      OneMore(p, r, i, indices, n, seconds);
    }
    NoneLater(p, r, i, indices, |indices|, seconds);
  }

  lemma OneMore(p: Request, r: nat, i: nat, indices: seq<nat>, n: nat, seconds: U32)
    requires n < |indices|
    ensures forall x: U32 :: CatchesSome(p, r, i, indices[..n + 1], seconds, x) <==>
              CatchesSome(p, r, i, indices[..n], seconds, x) || Catches(p, r, i, indices[n], seconds, x)
  {
    assert indices[..n + 1] == indices[..n] + [indices[n]];
  }

  lemma NoneLater(p: Request, r: nat, i: nat, indices: seq<nat>, n: nat, seconds: U32)
    requires n <= |indices| && forall t :: Considered(p, r, t) ==> t in indices
    requires forall m :: n <= m < |indices| && Departs(p, r, i, indices[m]) ==>
               !InWindow(p, seconds, DepartureOf(p, r, i, indices[m]))
    ensures forall x: U32 ::
              CatchesSome(p, r, i, indices[..n], seconds, x) <==> CatchesVisit(p, (r, i), seconds, x)
  {
    forall x: U32, t: nat | Catches(p, r, i, t, seconds, x)
      ensures t in indices[..n]
    {
      var m: nat :| m < |indices| && indices[m] == t;
      assert m < n;
      assert indices[..n][m] == t;
    }
  }

  ghost predicate CatchesAt(p: Request, stop: nat, seconds: U32, x: U32) {
    exists r: nat, i: nat :: Visits(p.tt, r, i, stop) && CatchesVisit(p, (r, i), seconds, x)
  }

  method FromStop(p: Request, stop: nat, seconds: U32, known: set<U32>) returns (selected: set<U32>)
    requires ValidTimetable(p.tt) && stop < |p.tt.stops|
    ensures forall x: U32 :: x in selected <==> x in known || CatchesAt(p, stop, seconds, x)
  {
    selected := known;
    var visits := p.tt.stopRoutes[stop];
    for n := 0 to |visits|
      invariant forall x: U32 :: x in selected <==>
                  x in known || exists e :: e in visits[..n] && CatchesVisit(p, e, seconds, x)
    {
      assert visits[..n + 1] == visits[..n] + [visits[n]];
      assert visits[n] in visits && Visits(p.tt, visits[n].0, visits[n].1, stop);
      selected := FromVisit(p, visits[n].0, visits[n].1, seconds, selected);
    }
    assert visits[..|visits|] == visits;
    forall x: U32 | CatchesAt(p, stop, seconds, x)
      ensures x in selected
    {
      var r: nat, i: nat :| Visits(p.tt, r, i, stop) && CatchesVisit(p, (r, i), seconds, x);
      assert (r, i) in visits;
    }
    forall x: U32, e | e in visits && CatchesVisit(p, e, seconds, x)
      ensures CatchesAt(p, stop, seconds, x)
    {
      assert Visits(p.tt, e.0, e.1, stop) && CatchesVisit(p, (e.0, e.1), seconds, x);
    }
  }

  /** The departure times of interest: the requested one, and one for every vehicle that can be caught. */
  ghost predicate Worthwhile(p: Request, access: map<nat, U32>, x: U32) {
    x == p.departure || exists stop :: stop in access && CatchesAt(p, stop, access[stop], x)
  }

  method Collect(p: Request, access: map<nat, U32>) returns (selected: set<U32>)
    requires ValidTimetable(p.tt) && forall stop :: stop in access ==> stop < |p.tt.stops|
    ensures forall x: U32 :: x in selected <==> Worthwhile(p, access, x)
  {
    selected := {p.departure};
    var todo := access.Keys;
    while todo != {}
      invariant todo <= access.Keys
      invariant forall x: U32 :: x in selected <==>
                  x == p.departure || exists stop :: stop in access && stop !in todo && CatchesAt(p, stop, access[stop], x)
      decreases todo
    {
      ghost var some := SomeElement(todo);
      var stop :| stop in todo;
      selected := FromStop(p, stop, access[stop], selected);
      todo := todo - {stop};
    }
  }

  // ---------------------------------------------------------------- sampling

  ghost predicate Increasing(xs: seq<U32>) {
    forall i, j :: 0 <= i < j < |xs| ==> xs[i] < xs[j]
  }

  /** Which of `n` departures is the `k`-th of `m` samples. */
  function SampleIndex(k: nat, n: nat, m: nat): nat
    requires k < m && 1 < m < n
  {
    k * (n - 1) / (m - 1)
  }

  lemma Quotient(x: nat, b: nat)
    requires b > 0
    ensures x / b * b <= x < x / b * b + b
  {
  }

  lemma Product(x: nat, y: nat, z: nat)
    requires x <= y
    ensures x * z <= y * z
  {
  }

  lemma QuotientGrows(x: nat, a: nat, b: nat)
    requires 0 < b <= a
    ensures x / b < (x + a) / b
  {
    Quotient(x, b);
    Quotient(x + a, b);
    if (x + a) / b <= x / b {
      Product((x + a) / b, x / b, b);
    }
  }

  lemma QuotientOfProduct(a: nat, b: nat)
    requires b > 0
    ensures b * a / b == a
  {
    var q := b * a / b;
    Quotient(b * a, b);
    assert q * b <= a * b < q * b + b;
    Product(Min(q + 1, a), a, b);
    Product(Min(a + 1, q), q, b);
  }

  lemma QuotientMonotone(x: nat, y: nat, b: nat)
    requires b > 0 && x <= y
    ensures x / b <= y / b
  {
    Quotient(x, b);
    Quotient(y, b);
    if y / b < x / b {
      Product(y / b + 1, x / b, b);
    }
  }

  /** The samples run from the first departure to the last and never repeat one. */
  lemma SampleIndices(k: nat, n: nat, m: nat)
    requires k < m && 1 < m < n
    ensures SampleIndex(k, n, m) < n
    ensures SampleIndex(0, n, m) == 0 && SampleIndex(m - 1, n, m) == n - 1
    ensures k + 1 < m ==> SampleIndex(k, n, m) < SampleIndex(k + 1, n, m)
  {
    var a, b := n - 1, m - 1;
    Product(k, b, a);
    QuotientMonotone(k * a, b * a, b);
    QuotientOfProduct(a, b);
    if k + 1 < m {
      assert (k + 1) * a == k * a + a;
      QuotientGrows(k * a, a, b);
    }
  }

  lemma {:induction false} SamplesIncrease(j: nat, k: nat, n: nat, m: nat)
    requires j < k < m && 1 < m < n
    ensures SampleIndex(j, n, m) < SampleIndex(k, n, m) < n
  {
    SampleIndices(k - 1, n, m);
    SampleIndices(k, n, m);
    if j < k - 1 {
      SamplesIncrease(j, k - 1, n, m);
    }
  }

  /** `i` is as far along `n` departures as `k` is along `m` samples, rounded down. */
  predicate AsFarAlong(k: nat, m: nat, i: nat, n: nat) {
    i * (m - 1) <= k * (n - 1) < (i + 1) * (m - 1)
  }

  /** Each sample is the departure at the proportional position. */
  ghost predicate Spread(xs: seq<U32>, m: nat, sampled: seq<U32>) {
    |sampled| == m && forall k :: 0 <= k < m ==> TakenAt(xs, m, k, sampled[k])
  }

  ghost predicate TakenAt(xs: seq<U32>, m: nat, k: nat, sample: U32) {
    exists i: nat :: i < |xs| && AsFarAlong(k, m, i, |xs|) && sample == xs[i]
  }

  lemma SampleAsFarAlong(k: nat, n: nat, m: nat)
    requires k < m && 1 < m < n
    ensures AsFarAlong(k, m, SampleIndex(k, n, m), n)
  {
    Quotient(k * (n - 1), m - 1);
    assert (SampleIndex(k, n, m) + 1) * (m - 1) == SampleIndex(k, n, m) * (m - 1) + (m - 1);
  }

  /** Neighbouring samples are `n - 1` over `m - 1` positions apart, rounded down or up. */
  lemma GapBounds(k: nat, m: nat, i: nat, j: nat, n: nat)
    requires 1 < m < n && AsFarAlong(k, m, i, n) && AsFarAlong(k + 1, m, j, n)
    ensures (j - i - 1) * (m - 1) < n - 1 < (j - i + 1) * (m - 1)
  {
    assert (k + 1) * (n - 1) == k * (n - 1) + (n - 1);
    assert (j - i - 1) * (m - 1) == j * (m - 1) - (i + 1) * (m - 1);
    assert (j - i + 1) * (m - 1) == (j + 1) * (m - 1) - i * (m - 1);
  }

  /** The gaps between neighbouring samples differ by at most one position. */
  lemma SpreadEvenly(m: nat, n: nat, k: nat, i: nat, j: nat, l: nat, i': nat, j': nat)
    requires 1 < m < n && AsFarAlong(k, m, i, n) && AsFarAlong(k + 1, m, j, n)
    requires AsFarAlong(l, m, i', n) && AsFarAlong(l + 1, m, j', n)
    ensures j - i <= j' - i' + 1
  {
    GapBounds(k, m, i, j, n);
    GapBounds(l, m, i', j', n);
    var wide, narrow := j - i - 1, j' - i' + 1;
    assert wide * (m - 1) < narrow * (m - 1);
    SmallerFactor(wide, narrow, m - 1);
  }

  lemma SmallerFactor(x: int, y: int, z: nat)
    requires x * z < y * z
    ensures x < y
  {
    assert (y - x) * z == y * z - x * z;
  }

  /** `sampled` is `xs` thinned evenly to at most `m` elements, in order, with the first and the last kept. */
  ghost predicate Thinned(xs: seq<U32>, m: nat, sampled: seq<U32>) {
    && |sampled| == Min(m, |xs|) && |sampled| > 0 && Increasing(sampled)
    && (forall x :: x in sampled ==> x in xs)
    && sampled[0] == xs[0] && sampled[|sampled| - 1] == xs[|xs| - 1]
    && (|xs| <= m ==> sampled == xs)
    && (1 < m < |xs| ==> Spread(xs, m, sampled))
  }

  /** The first samples are the departures at their positions. */
  ghost predicate Sampled(xs: seq<U32>, m: nat, sampled: seq<U32>)
    requires 1 < m < |xs|
  {
    && |sampled| <= m
    && forall k :: 0 <= k < |sampled| ==> SampleIndex(k, |xs|, m) < |xs| && sampled[k] == xs[SampleIndex(k, |xs|, m)]
  }

  lemma SampledIncreasing(xs: seq<U32>, m: nat, sampled: seq<U32>)
    requires Increasing(xs) && 1 < m < |xs| && Sampled(xs, m, sampled)
    ensures Increasing(sampled)
  {
    hide SampleIndex;
    forall j, k | 0 <= j < k < |sampled|
      ensures sampled[j] < sampled[k]
    {
      SamplesIncrease(j, k, |xs|, m);
    }
  }

  lemma SampledSpread(xs: seq<U32>, m: nat, sampled: seq<U32>)
    requires 1 < m < |xs| && Sampled(xs, m, sampled) && |sampled| == m
    ensures Spread(xs, m, sampled)
  {
    hide SampleIndex, AsFarAlong;
    forall k | 0 <= k < m
      ensures TakenAt(xs, m, k, sampled[k])
    {
      SampleAsFarAlong(k, |xs|, m);
    }
  }

  /** Thinning to at most `m` departures keeps the order, the first and the last. */
  method Thin(xs: seq<U32>, m: nat) returns (sampled: seq<U32>)
    requires Increasing(xs) && |xs| > 0 && m > 1
    ensures Thinned(xs, m, sampled)
  {
    hide SampleIndex, Spread, Increasing;
    if |xs| <= m {
      return xs;
    }
    sampled := [];
    for k := 0 to m
      invariant |sampled| == k && Sampled(xs, m, sampled)
    {
      SampleIndices(k, |xs|, m);
      sampled := sampled + [xs[SampleIndex(k, |xs|, m)]];
    }
    SampledThinned(xs, m, sampled);
  }

  lemma SampledThinned(xs: seq<U32>, m: nat, sampled: seq<U32>)
    requires Increasing(xs) && 1 < m < |xs| && Sampled(xs, m, sampled) && |sampled| == m
    ensures Thinned(xs, m, sampled)
  {
    hide SampleIndex, Spread, Increasing;
    SampleIndices(0, |xs|, m);
    SampledIncreasing(xs, m, sampled);
    SampledSpread(xs, m, sampled);
    assert sampled[0] == xs[SampleIndex(0, |xs|, m)] && sampled[m - 1] == xs[SampleIndex(m - 1, |xs|, m)];
  }

  predicate Ascending(x: U32, y: U32) {
    x <= y
  }

  method SortedTimes(selected: set<U32>) returns (xs: seq<U32>)
    ensures Increasing(xs) && forall x: U32 :: x in xs <==> x in selected
  {
    var unsorted := Elements(selected);
    xs := Sort(unsorted, Ascending);
    SortSorts(unsorted, Ascending);
    DistinctPermuted(unsorted, xs);
  }

  lemma OfferInRange(p: Request, stops: nat, links: nat, stop: nat, seconds: U32)
    requires Indexed(p.tt.stops, p.stopIndices) && Offers(p, stops, links, stop, seconds)
    ensures stop < |p.tt.stops|
  {
    if n: nat :| Requested(p, n, stop) {
      var id := p.stopIds[n];
      assert id in p.stopIndices && p.tt.stops[p.stopIndices[id]] == id;
    } else {
      var n: nat :| n < links && Linked(p, n, stop, seconds);
      assert p.stopIndices[p.access[n].to] == stop;
    }
  }

  lemma AccessInRange(p: Request, access: map<nat, U32>)
    requires ValidRequest(p) && LeastAccess(p, |p.stopIds|, |p.access|, access)
    ensures forall stop :: stop in access ==> stop < |p.tt.stops|
  {
    hide ValidTimetable;
    forall stop | stop in access
      ensures stop < |p.tt.stops|
    {
      OfferInRange(p, |p.stopIds|, |p.access|, stop, access[stop]);
    }
  }

  lemma RequestWorthwhile(p: Request, access: map<nat, U32>)
    ensures Worthwhile(p, access, p.departure)
  {
  }

  /** `departure_times_from_stops`: all worthwhile departure times, in order, thinned evenly to the limit. */
  method DepartureTimes(p: Request) returns (times: seq<U32>, ghost access: map<nat, U32>, ghost all: seq<U32>)
    requires ValidRequest(p)
    ensures LeastAccess(p, |p.stopIds|, |p.access|, access)
    ensures p.window == 0 || p.maxDepartures <= 1 ==> times == [p.departure]
    ensures p.window > 0 && p.maxDepartures > 1 ==>
              && Increasing(all) && (forall x: U32 :: x in all <==> Worthwhile(p, access, x))
              && Thinned(all, p.maxDepartures, times)
  {
    var m := Max(p.maxDepartures, 1);
    var known := AccessSeconds(p);
    access := known;
    all := [];
    if p.window == 0 || m == 1 {
      return [p.departure], access, all;
    }
    AccessInRange(p, known);
    hide *;
    var selected := Collect(p, known);
    RequestWorthwhile(p, known);
    var sorted := SortedTimes(selected);
    all := sorted;
    times := Thin(sorted, m);
  }

  // ---------------------------------------------------------------- what the window means

  ghost predicate NoSaturation(p: Request, access: map<nat, U32>) {
    forall stop :: stop in access ==> p.departure + p.window + access[stop] <= U32_MAX
  }

  /** A vehicle of an allowed mode leaves `stop` at `vehicle` and takes passengers. */
  ghost predicate Leaves(p: Request, stop: nat, vehicle: U32) {
    exists r, i, t :: Visits(p.tt, r, i, stop) && Departs(p, r, i, t) && DepartureOf(p, r, i, t) == vehicle
  }

  /** Without saturation the times are the requested one and every vehicle departure that, less the time it takes to get
      to its stop, falls into the window. */
  lemma WorthwhileIsWindow(p: Request, access: map<nat, U32>, x: U32)
    requires NoSaturation(p, access)
    ensures Worthwhile(p, access, x) <==>
      x == p.departure
      || (p.departure <= x <= p.departure + p.window && exists stop :: stop in access && x + access[stop] <= U32_MAX
                                                                       && Leaves(p, stop, x + access[stop]))
  {
    if Worthwhile(p, access, x) && x != p.departure {
      var stop :| stop in access && CatchesAt(p, stop, access[stop], x);
      var r: nat, i: nat :| Visits(p.tt, r, i, stop) && CatchesVisit(p, (r, i), access[stop], x);
      var t :| Catches(p, r, i, t, access[stop], x);
      assert Leaves(p, stop, x + access[stop]);
    }
    forall stop | stop in access && p.departure <= x <= p.departure + p.window && x + access[stop] <= U32_MAX
                  && Leaves(p, stop, x + access[stop])
      ensures Worthwhile(p, access, x)
    {
      var r, i, t :| Visits(p.tt, r, i, stop) && Departs(p, r, i, t)
                     && DepartureOf(p, r, i, t) == x + access[stop];
      assert Catches(p, r, i, t, access[stop], x);
      assert CatchesVisit(p, (r, i), access[stop], x);
      assert CatchesAt(p, stop, access[stop], x);
    }
  }

  /** No time before the requested one is returned exactly when no vehicle leaves at the very end of time from a stop
      that cannot be reached by then. */
  lemma NeverEarlier(p: Request, access: map<nat, U32>)
    ensures (forall x: U32 :: Worthwhile(p, access, x) ==> p.departure <= x) <==>
            (forall stop :: stop in access && p.departure + access[stop] > U32_MAX ==> !Leaves(p, stop, U32_MAX))
  {
    if stop :| stop in access && p.departure + access[stop] > U32_MAX && Leaves(p, stop, U32_MAX) {
      var r, i, t :| Visits(p.tt, r, i, stop) && Departs(p, r, i, t) && DepartureOf(p, r, i, t) == U32_MAX;
      var x := SatSub(U32_MAX, access[stop]);
      assert Catches(p, r, i, t, access[stop], x);
      assert CatchesVisit(p, (r, i), access[stop], x);
      assert CatchesAt(p, stop, access[stop], x);
      assert Worthwhile(p, access, x);
    } else {
      forall x: U32 | Worthwhile(p, access, x) && x != p.departure
        ensures p.departure <= x
      {
        var stop :| stop in access && CatchesAt(p, stop, access[stop], x);
        var r: nat, i: nat :| Visits(p.tt, r, i, stop) && CatchesVisit(p, (r, i), access[stop], x);
        var t :| Catches(p, r, i, t, access[stop], x);
        assert Leaves(p, stop, DepartureOf(p, r, i, t));
      }
    }
  }
}
