/** What a selection picks from the services on offer, told by their times, lines and trips alone. */
module SelectionLaws {
  import opened Machine
  import opened Sorting
  import opened Selection

  /** `x` leaves no later than `y`; on equal departures it arrives no later, and so on down to the stops. */
  predicate NoLater(x: Candidate, y: Candidate) {
    if x.departure != y.departure then x.departure < y.departure
    else if x.arrival != y.arrival then x.arrival < y.arrival
    else if x.routeId != y.routeId then x.routeId < y.routeId
    else if x.tripId != y.tripId then x.tripId < y.tripId
    else if x.from != y.from then x.from < y.from
    else x.to <= y.to
  }

  /** The same trip between the same stops. */
  predicate SameRide(x: Candidate, y: Candidate) {
    x.tripId == y.tripId && x.from == y.from && x.to == y.to
  }

  predicate LeftOut(picked: seq<Candidate>, c: Candidate) {
    forall x :: x in picked ==> !SameRide(x, c)
  }

  predicate LineLeftOut(picked: seq<Candidate>, c: Candidate) {
    forall x :: x in picked ==> x.routeId != c.routeId
  }

  /** `picked[a]` is the first of its line there. */
  predicate LeadsLine(picked: seq<Candidate>, a: nat)
    requires a < |picked|
  {
    forall b :: 0 <= b < a ==> picked[b].routeId != picked[a].routeId
  }

  /** The picked services are on offer, at most `k`, in order, and no ride twice. */
  ghost predicate InOrder(offered: iset<Candidate>, k: nat, picked: seq<Candidate>) {
    && |picked| <= k && (forall x :: x in picked ==> x in offered)
    && forall a, b :: 0 <= a < b < |picked| ==> NoLater(picked[a], picked[b]) && !SameRide(picked[a], picked[b])
  }

  /** Each line is led by its first service on offer, and each ride picked is the first on offer of its kind. */
  ghost predicate LedByFirst(offered: iset<Candidate>, picked: seq<Candidate>) {
    forall a, c :: 0 <= a < |picked| && c in offered ==>
      && (LeadsLine(picked, a) && c.routeId == picked[a].routeId ==> NoLater(picked[a], c))
      && (SameRide(c, picked[a]) ==> NoLater(picked[a], c))
  }

  /** Nothing is left out unless the list is full. */
  ghost predicate FullIfLeftOut(offered: iset<Candidate>, k: nat, picked: seq<Candidate>) {
    forall c :: c in offered && LeftOut(picked, c) ==> |picked| == k
  }

  /** What is left out is no earlier than any service that does not lead its line, and than all if its own line is left
      out, too. */
  ghost predicate RidesFair(offered: iset<Candidate>, picked: seq<Candidate>) {
    forall a, c :: 0 <= a < |picked| && c in offered && LeftOut(picked, c) ==>
      (!LeadsLine(picked, a) || LineLeftOut(picked, c) ==> NoLater(picked[a], c))
  }

  /** A line is left out only when every place went to a different line. */
  ghost predicate LinesFair(offered: iset<Candidate>, picked: seq<Candidate>) {
    forall a, c :: 0 <= a < |picked| && c in offered && LineLeftOut(picked, c) ==> LeadsLine(picked, a)
  }

  ghost predicate PickedWell(offered: iset<Candidate>, k: nat, picked: seq<Candidate>) {
    && InOrder(offered, k, picked) && LedByFirst(offered, picked)
    && FullIfLeftOut(offered, k, picked) && RidesFair(offered, picked) && LinesFair(offered, picked)
  }

  lemma OrderIsNoLater(x: Candidate, y: Candidate)
    ensures CandidateOrder(x, y) <==> NoLater(x, y)
    ensures IdentityOf(x) == IdentityOf(y) <==> SameRide(x, y)
  {
  }

  // ---------------------------------------------------------------- the list without repetitions

  lemma {:induction false} DedupInOrder(xs: seq<Candidate>)
    requires SortedBy(xs, CandidateOrder)
    ensures SortedBy(Dedup(xs), CandidateOrder)
    ensures forall c :: c in Dedup(xs) ==> c in xs
  {
    if |xs| > 0 {
      var front := xs[..|xs| - 1];
      DedupInOrder(front);
      var kept := Dedup(front);
      forall i | 0 <= i < |kept|
        ensures CandidateOrder(kept[i], xs[|xs| - 1])
      {
        assert kept[i] in front;
      }
    }
  }

  /** For every candidate the list keeps one of the same ride that is no later. */
  ghost predicate KeepsFirst(kept: seq<Candidate>, c: Candidate) {
    exists m :: 0 <= m < |kept| && SameRide(kept[m], c) && NoLater(kept[m], c)
  }

  lemma KeptLonger(kept: seq<Candidate>, more: seq<Candidate>, c: Candidate)
    requires KeepsFirst(kept, c) && kept <= more
    ensures KeepsFirst(more, c)
  {
    var m :| 0 <= m < |kept| && SameRide(kept[m], c) && NoLater(kept[m], c);
    assert more[m] == kept[m];
  }

  lemma KeptForLater(kept: seq<Candidate>, x: Candidate, c: Candidate)
    requires KeepsFirst(kept, x) && SameRide(x, c) && NoLater(x, c)
    ensures KeepsFirst(kept, c)
  {
    var m :| 0 <= m < |kept| && SameRide(kept[m], x) && NoLater(kept[m], x);
    assert SameRide(kept[m], c) && NoLater(kept[m], c);
  }

  lemma {:induction false} DedupKeepsFirst(xs: seq<Candidate>, c: Candidate)
    requires SortedBy(xs, CandidateOrder) && c in xs
    ensures KeepsFirst(Dedup(xs), c)
  {
    hide NoLater, SameRide, KeepsFirst, CandidateOrder, IdentityOf;
    var front, last := xs[..|xs| - 1], xs[|xs| - 1];
    var kept := Dedup(front);
    assert xs == front + [last];
    if c in front {
      DedupKeepsFirst(front, c);
      KeptLonger(kept, Dedup(xs), c);
    } else if IdentityOf(last) in Identities(front) {
      var x :| x in front && IdentityOf(x) == IdentityOf(last);
      DedupKeepsFirst(front, x);
      OrderIsNoLater(x, last);
      KeptForLater(kept, x, last);
    } else {
      KeptItself(Dedup(xs), |kept|);
    }
  }

  lemma KeptItself(kept: seq<Candidate>, m: nat)
    requires m < |kept|
    ensures KeepsFirst(kept, kept[m])
  {
    assert SameRide(kept[m], kept[m]) && NoLater(kept[m], kept[m]);
  }

  // ---------------------------------------------------------------- places in the list

  /** The places of what is chosen among the first `n`. */
  ghost function ChosenPlaces(xs: seq<Candidate>, k: nat, n: nat): seq<nat>
    requires n <= |xs|
  {
    if n == 0 then [] else ChosenPlaces(xs, k, n - 1) + if Chosen(xs, k, n - 1) then [n - 1] else []
  }

  ghost predicate PlacesOf(xs: seq<Candidate>, k: nat, n: nat, places: seq<nat>, picked: seq<Candidate>)
    requires n <= |xs|
  {
    && |places| == |picked|
    && (forall a :: 0 <= a < |places| ==> places[a] < n && Chosen(xs, k, places[a]) && picked[a] == xs[places[a]])
    && (forall a, b :: 0 <= a < b < |places| ==> places[a] < places[b])
    && (forall i :: 0 <= i < n && Chosen(xs, k, i) ==> i in places)
  }

  lemma {:induction false} PlacesExact(xs: seq<Candidate>, k: nat, n: nat)
    requires n <= |xs|
    ensures PlacesOf(xs, k, n, ChosenPlaces(xs, k, n), ChosenBelow(xs, k, n))
  {
    hide Chosen;
    if n > 0 {
      PlacesExact(xs, k, n - 1);
    }
  }

  // ---------------------------------------------------------------- who is chosen

  lemma {:induction false} FirstOfItsLine(xs: seq<Candidate>, i: nat) returns (j: nat)
    requires i < |xs|
    ensures j <= i && IsFirst(xs, j) && xs[j].routeId == xs[i].routeId
  {
    j := i;
    if !IsFirst(xs, i) {
      var x :| x in xs[..i] && x.routeId == xs[i].routeId;
      var m :| 0 <= m < i && xs[m] == x;
      j := FirstOfItsLine(xs, m);
    }
  }

  /** When a candidate that is not the first of its line is chosen, every first of a line is. */
  lemma FirstsChosen(xs: seq<Candidate>, k: nat, i: nat, j: nat)
    requires i < |xs| && j < |xs| && Chosen(xs, k, i) && !IsFirst(xs, i) && IsFirst(xs, j)
    ensures Chosen(xs, k, j)
  {
    RankGrows(xs, j, |xs|, k);
  }

  /** What is chosen without being the first of its line comes before what is not chosen. */
  lemma FillersComeFirst(xs: seq<Candidate>, k: nat, i: nat, m: nat)
    requires i < |xs| && m < |xs| && Chosen(xs, k, i) && !IsFirst(xs, i) && !Chosen(xs, k, m)
    ensures i < m
  {
    if m <= i {
      RankGrows(xs, m, i, k);
    }
  }

  /** When the first of a line is not chosen, what is chosen are firsts of lines before it. */
  lemma OnlyEarlierFirsts(xs: seq<Candidate>, k: nat, i: nat, j: nat)
    requires i < |xs| && j < |xs| && Chosen(xs, k, i) && IsFirst(xs, j) && !Chosen(xs, k, j)
    ensures i < j && IsFirst(xs, i)
  {
    RankGrows(xs, j, |xs|, k);
    if j <= i {
      RankGrows(xs, j, i, k);
    }
  }

  // ---------------------------------------------------------------- what is picked

  /** `xs` is the list on offer without repetitions, and `picked` what is chosen from it, at these places. */
  ghost predicate Setting(all: seq<Candidate>, k: nat, xs: seq<Candidate>, places: seq<nat>, picked: seq<Candidate>) {
    && SortedBy(xs, CandidateOrder) && DistinctIdentities(xs)
    && (forall x :: x in xs ==> x in all) && (forall c :: c in all ==> KeepsFirst(xs, c))
    && PlacesOf(xs, k, |xs|, places, picked)
    && (forall x, y :: x in all && y in all && x.tripId == y.tripId ==> x.routeId == y.routeId)
  }

  lemma PlacesInOrder(all: seq<Candidate>, k: nat, xs: seq<Candidate>, places: seq<nat>, picked: seq<Candidate>, a: nat,
                      b: nat)
    requires Setting(all, k, xs, places, picked) && a < b < |picked|
    ensures NoLater(picked[a], picked[b]) && !SameRide(picked[a], picked[b])
  {
    OrderIsNoLater(picked[a], picked[b]);
    assert CandidateOrder(xs[places[a]], xs[places[b]]);
  }

  /** Where a candidate on offer has its first ride of the kind, and the first of its line. */
  lemma PlaceOnOffer(all: seq<Candidate>, k: nat, xs: seq<Candidate>, places: seq<nat>, picked: seq<Candidate>, c: Candidate)
      returns (m: nat, j: nat)
    requires Setting(all, k, xs, places, picked) && c in all
    ensures j <= m < |xs| && SameRide(xs[m], c) && NoLater(xs[m], c) && xs[m].routeId == c.routeId
    ensures IsFirst(xs, j) && xs[j].routeId == c.routeId && NoLater(xs[j], xs[m])
  {
    m :| 0 <= m < |xs| && SameRide(xs[m], c) && NoLater(xs[m], c);
    assert xs[m] in all;
    j := FirstOfItsLine(xs, m);
    OrderIsNoLater(xs[j], xs[m]);
    assert j < m ==> CandidateOrder(xs[j], xs[m]);
  }

  /** A chosen place is among those picked. */
  lemma PickedAt(xs: seq<Candidate>, k: nat, places: seq<nat>, picked: seq<Candidate>, i: nat) returns (a: nat)
    requires PlacesOf(xs, k, |xs|, places, picked) && i < |xs| && Chosen(xs, k, i)
    ensures a < |picked| && places[a] == i && picked[a] == xs[i]
  {
    assert i in places;
    a :| 0 <= a < |places| && places[a] == i;
  }

  lemma ChainNoLater(x: Candidate, y: Candidate, z: Candidate)
    requires NoLater(x, y) && NoLater(y, z)
    ensures NoLater(x, z)
  {
  }

  lemma PlaceNoLater(xs: seq<Candidate>, i: nat, m: nat)
    requires SortedBy(xs, CandidateOrder) && i <= m < |xs|
    ensures NoLater(xs[i], xs[m])
  {
    OrderIsNoLater(xs[i], xs[m]);
    assert i < m ==> CandidateOrder(xs[i], xs[m]);
  }

  /** Who leads a line among those picked is the first of the line in the list, and the other way round. */
  lemma LeaderIsFirst(xs: seq<Candidate>, k: nat, places: seq<nat>, picked: seq<Candidate>, a: nat)
    requires PlacesOf(xs, k, |xs|, places, picked) && a < |picked|
    ensures LeadsLine(picked, a) <==> IsFirst(xs, places[a])
  {
    if !IsFirst(xs, places[a]) {
      var j := FirstOfItsLine(xs, places[a]);
      FirstsChosen(xs, k, places[a], j);
      var b := PickedAt(xs, k, places, picked, j);
      assert b < a;
    } else {
      forall b | 0 <= b < a
        ensures picked[b].routeId != picked[a].routeId
      {
        assert xs[places[b]] in xs[..places[a]];
      }
    }
  }

  lemma LeaderNoLater(all: seq<Candidate>, k: nat, xs: seq<Candidate>, places: seq<nat>, picked: seq<Candidate>, a: nat,
                      c: Candidate)
    requires Setting(all, k, xs, places, picked) && a < |picked| && c in all
    ensures LeadsLine(picked, a) && c.routeId == picked[a].routeId ==> NoLater(picked[a], c)
    ensures SameRide(c, picked[a]) ==> NoLater(picked[a], c)
  {
    var m, j := PlaceOnOffer(all, k, xs, places, picked, c);
    LeaderIsFirst(xs, k, places, picked, a);
    if LeadsLine(picked, a) && c.routeId == picked[a].routeId {
      SameFirst(xs, places[a], j);
      ChainNoLater(picked[a], xs[m], c);
    }
    if SameRide(c, picked[a]) {
      OrderIsNoLater(xs[m], picked[a]);
      assert m == places[a];
    }
  }

  lemma SameFirst(xs: seq<Candidate>, i: nat, j: nat)
    requires i < |xs| && j < |xs| && IsFirst(xs, i) && IsFirst(xs, j) && xs[i].routeId == xs[j].routeId
    ensures i == j
  {
    assert forall a, b :: 0 <= a < b < |xs| ==> xs[a] in xs[..b];
  }

  lemma NotChosen(xs: seq<Candidate>, k: nat, places: seq<nat>, picked: seq<Candidate>, m: nat)
    requires PlacesOf(xs, k, |xs|, places, picked) && m < |xs| && Chosen(xs, k, m)
    ensures xs[m] in picked
  {
    var a := PickedAt(xs, k, places, picked, m);
    assert picked[a] in picked;
  }

  lemma LeftOutFairly(all: seq<Candidate>, k: nat, xs: seq<Candidate>, places: seq<nat>, picked: seq<Candidate>, a: nat,
                      c: Candidate)
    requires Setting(all, k, xs, places, picked) && a < |picked| && c in all && LeftOut(picked, c)
    ensures !LeadsLine(picked, a) || LineLeftOut(picked, c) ==> NoLater(picked[a], c)
    ensures LineLeftOut(picked, c) ==> LeadsLine(picked, a)
  {
    var m, j := PlaceOnOffer(all, k, xs, places, picked, c);
    LeaderIsFirst(xs, k, places, picked, a);
    assert !Chosen(xs, k, m) by {
      if Chosen(xs, k, m) {
        NotChosen(xs, k, places, picked, m);
      }
    }
    if LineLeftOut(picked, c) {
      if Chosen(xs, k, j) {
        NotChosen(xs, k, places, picked, j);
      }
      OnlyEarlierFirsts(xs, k, places[a], j);
      PlaceNoLater(xs, places[a], m);
      ChainNoLater(picked[a], xs[m], c);
    } else if !LeadsLine(picked, a) {
      FillersComeFirst(xs, k, places[a], m);
      PlaceNoLater(xs, places[a], m);
      ChainNoLater(picked[a], xs[m], c);
    }
  }

  /** What is left out has filled the list. */
  lemma {:induction false} ListFull(all: seq<Candidate>, k: nat, picked: seq<Candidate>, c: Candidate)
    requires |picked| == Min(k, |Identities(all)|) && c in all && LeftOut(picked, c)
    requires forall x :: x in picked ==> x in all
    requires forall a, b :: 0 <= a < b < |picked| ==> !SameRide(picked[a], picked[b])
    ensures |picked| == k
  {
    DistinctCount(picked);
    var known := Identities(picked);
    assert IdentityOf(c) in Identities(all);
    forall x | x in picked
      ensures IdentityOf(x) != IdentityOf(c)
    {
      OrderIsNoLater(x, c);
    }
    assert IdentityOf(c) !in known;
    assert known <= Identities(all);
    SubsetSize(known, Identities(all));
  }

  lemma {:induction false} DistinctCount(picked: seq<Candidate>)
    requires forall a, b :: 0 <= a < b < |picked| ==> !SameRide(picked[a], picked[b])
    ensures |Identities(picked)| == |picked|
  {
    if |picked| > 0 {
      var front, last := picked[..|picked| - 1], picked[|picked| - 1];
      assert picked == front + [last];
      DistinctCount(front);
      LinesSnoc(front, last);
      forall x | x in front
        ensures IdentityOf(x) != IdentityOf(last)
      {
        OrderIsNoLater(x, last);
      }
      assert IdentityOf(last) !in Identities(front);
    } else {
      assert Identities([]) == {};
    }
  }

  lemma SettingOf(all: seq<Candidate>, k: nat)
    requires SortedBy(all, CandidateOrder) && OneLine(all)
    ensures var xs := Dedup(all);
            Setting(all, k, xs, ChosenPlaces(xs, k, |xs|), Select(all, k)) && |Select(all, k)| == Min(k, |Identities(all)|)
  {
    var xs := Dedup(all);
    DedupInOrder(all);
    DedupKeeps(all);
    SelectDedup(all, k);
    PassIsChoice(xs, |xs|, k);
    assert xs[..|xs|] == xs;
    SelectionCoversLines(all, k);
    PlacesExact(xs, k, |xs|);
    forall c | c in all
      ensures KeepsFirst(xs, c)
    {
      DedupKeepsFirst(all, c);
    }
  }

  ghost function Among(all: seq<Candidate>): iset<Candidate> {
    iset c | c in all
  }

  lemma PickedInOrder(all: seq<Candidate>, k: nat, xs: seq<Candidate>, places: seq<nat>, picked: seq<Candidate>)
    requires Setting(all, k, xs, places, picked) && |picked| <= k
    ensures InOrder(Among(all), k, picked)
  {
    forall a, b | 0 <= a < b < |picked|
      ensures NoLater(picked[a], picked[b]) && !SameRide(picked[a], picked[b])
    {
      PlacesInOrder(all, k, xs, places, picked, a, b);
    }
    forall x | x in picked
      ensures x in all
    {
      var a :| 0 <= a < |picked| && picked[a] == x;
      assert xs[places[a]] in xs;
    }
  }

  lemma PickedLedByFirst(all: seq<Candidate>, k: nat, xs: seq<Candidate>, places: seq<nat>, picked: seq<Candidate>)
    requires Setting(all, k, xs, places, picked)
    ensures LedByFirst(Among(all), picked)
  {
    hide Setting, LeadsLine, NoLater, SameRide;
    forall a, c | 0 <= a < |picked| && c in all
      ensures LeadsLine(picked, a) && c.routeId == picked[a].routeId ==> NoLater(picked[a], c)
      ensures SameRide(c, picked[a]) ==> NoLater(picked[a], c)
    {
      LeaderNoLater(all, k, xs, places, picked, a, c);
    }
  }

  lemma LineOutRideOut(all: seq<Candidate>, k: nat, xs: seq<Candidate>, places: seq<nat>, picked: seq<Candidate>,
                       c: Candidate)
    requires Setting(all, k, xs, places, picked) && InOrder(Among(all), k, picked) && c in all && LineLeftOut(picked, c)
    ensures LeftOut(picked, c)
  {
  }

  lemma RidesFairlyLeftOut(all: seq<Candidate>, k: nat, xs: seq<Candidate>, places: seq<nat>, picked: seq<Candidate>)
    requires Setting(all, k, xs, places, picked)
    ensures RidesFair(Among(all), picked)
  {
    hide Setting, LeadsLine, LeftOut, LineLeftOut, NoLater;
    forall a, c | 0 <= a < |picked| && c in all && LeftOut(picked, c) && (!LeadsLine(picked, a) || LineLeftOut(picked, c))
      ensures NoLater(picked[a], c)
    {
      LeftOutFairly(all, k, xs, places, picked, a, c);
    }
  }

  lemma LinesFairlyLeftOut(all: seq<Candidate>, k: nat, xs: seq<Candidate>, places: seq<nat>, picked: seq<Candidate>)
    requires Setting(all, k, xs, places, picked) && InOrder(Among(all), k, picked)
    ensures LinesFair(Among(all), picked)
  {
    hide Setting, InOrder, LeadsLine, LeftOut, LineLeftOut, NoLater;
    forall a, c | 0 <= a < |picked| && c in all && LineLeftOut(picked, c)
      ensures LeadsLine(picked, a)
    {
      LineOutRideOut(all, k, xs, places, picked, c);
      LeftOutFairly(all, k, xs, places, picked, a, c);
    }
  }

  lemma OnlyWhenFull(all: seq<Candidate>, k: nat, picked: seq<Candidate>)
    requires InOrder(Among(all), k, picked) && |picked| == Min(k, |Identities(all)|)
    ensures FullIfLeftOut(Among(all), k, picked)
  {
    hide Identities, LeftOut;
    forall c | c in all && LeftOut(picked, c)
      ensures |picked| == k
    {
      ListFull(all, k, picked, c);
    }
  }

  /** The selection picks well from the candidates in the list. */
  lemma SelectPicksWell(all: seq<Candidate>, k: nat)
    requires SortedBy(all, CandidateOrder) && OneLine(all)
    ensures PickedWell(Among(all), k, Select(all, k))
  {
    hide Setting, Select, Dedup, ChosenPlaces, OneLine, SortedBy, Identities, InOrder, LedByFirst, FullIfLeftOut, RidesFair,
      LinesFair, Among;
    SettingOf(all, k);
    var xs, picked := Dedup(all), Select(all, k);
    var places := ChosenPlaces(xs, k, |xs|);
    PickedInOrder(all, k, xs, places, picked);
    PickedLedByFirst(all, k, xs, places, picked);
    OnlyWhenFull(all, k, picked);
    RidesFairlyLeftOut(all, k, xs, places, picked);
    LinesFairlyLeftOut(all, k, xs, places, picked);
  }
}
