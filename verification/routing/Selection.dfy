/** Choosing a bounded list of direct services: one per line first, then the earliest of the rest. */
module Selection {
  import opened Machine
  import opened Sorting
  import opened Network

  datatype Candidate = Candidate(
    tripId: Id, routeId: Id, from: Id, to: Id, mode: Mode,
    scheduledDeparture: U32, scheduledArrival: U32, departure: U32, arrival: U32)

  type Identity = (Id, Id, Id)

  function IdentityOf(c: Candidate): Identity {
    (c.tripId, c.from, c.to)
  }

  predicate Before(x: int, y: int, rest: bool) {
    x < y || (x == y && rest)
  }

  /** The order of `sort_key`. */
  predicate CandidateOrder(x: Candidate, y: Candidate) {
    Before(x.departure, y.departure,
      Before(x.arrival, y.arrival,
        Before(x.routeId, y.routeId,
          Before(x.tripId, y.tripId,
            Before(x.from, y.from, x.to <= y.to)))))
  }

  lemma CandidateOrderTotal()
    ensures TotalPreorder(CandidateOrder)
  {
  }

  // ---------------------------------------------------------------- the selection, in one pass

  /** Where a selection stands: identities and lines met, places still reserved for new lines, places to fill freely,
      and what has been picked. */
  datatype Picking = Picking(ids: set<Identity>, lines: set<Id>, reserve: nat, fill: nat, picked: seq<Candidate>)

  function PickStep(s: Picking, c: Candidate): Picking {
    if IdentityOf(c) in s.ids then s
    else
      var t := s.(ids := s.ids + {IdentityOf(c)}, lines := s.lines + {c.routeId});
      if c.routeId !in s.lines && s.reserve > 0 then t.(reserve := s.reserve - 1, picked := s.picked + [c])
      else if s.fill > 0 then t.(fill := s.fill - 1, picked := s.picked + [c])
      else t
  }

  function PickAll(s: Picking, xs: seq<Candidate>): Picking {
    if |xs| == 0 then s else PickStep(PickAll(s, xs[..|xs| - 1]), xs[|xs| - 1])
  }

  function Lines(xs: seq<Candidate>): set<Id> {
    set c | c in xs :: c.routeId
  }

  function Opening(xs: seq<Candidate>, k: nat): Picking {
    var reserve := Min(k, |Lines(xs)|);
    Picking({}, {}, reserve, k - reserve, [])
  }

  /** From candidates in order: drop repeated identities, keep a place for the first candidate of each line, fill the
      other places from the front. */
  function Select(xs: seq<Candidate>, k: nat): seq<Candidate> {
    PickAll(Opening(xs, k), xs).picked
  }

  // ---------------------------------------------------------------- dropping what cannot be picked

  /** A candidate, whether truncation keeps it, and the endpoint pair it belongs to. */
  datatype Tagged = Tagged(candidate: Candidate, kept: bool, group: nat)

  predicate IsKept(t: Tagged) {
    t.kept
  }

  predicate TaggedOrder(x: Tagged, y: Tagged) {
    CandidateOrder(x.candidate, y.candidate)
  }

  function Strip(xs: seq<Tagged>): (r: seq<Candidate>)
    ensures |r| == |xs| && forall i :: 0 <= i < |xs| ==> r[i] == xs[i].candidate
  {
    seq(|xs|, i requires 0 <= i < |xs| => xs[i].candidate)
  }

  /** Candidates of one trip belong to one line. */
  ghost predicate OneLinePerTrip(xs: seq<Tagged>) {
    forall i, j :: 0 <= i < |xs| && 0 <= j < |xs| && xs[i].candidate.tripId == xs[j].candidate.tripId ==>
      xs[i].candidate.routeId == xs[j].candidate.routeId
  }

  ghost predicate KeptBefore(xs: seq<Tagged>, p: nat, id: Identity)
    requires p <= |xs|
  {
    exists j :: 0 <= j < p && xs[j].kept && IdentityOf(xs[j].candidate) == id
  }

  ghost predicate AllKeptBefore(xs: seq<Tagged>, p: nat, ids: set<Identity>)
    requires p <= |xs|
  {
    forall id :: id in ids ==> KeptBefore(xs, p, id)
  }

  ghost predicate LineBefore(xs: seq<Tagged>, p: nat, line: Id)
    requires p <= |xs|
  {
    exists j :: 0 <= j < p && xs[j].kept && xs[j].candidate.routeId == line
  }

  /** Before position `p` at least `k` identities are kept, and the line of the element there is among the kept. */
  ghost predicate Outnumbered(xs: seq<Tagged>, k: nat, p: nat)
    requires p < |xs|
  {
    && LineBefore(xs, p, xs[p].candidate.routeId)
    && exists ids :: |ids| == k && AllKeptBefore(xs, p, ids)
  }

  /** The two selections, side by side after a prefix. */
  ghost predicate InStep(xs: seq<Tagged>, n: nat, k: nat, s: Picking, s': Picking)
    requires n <= |xs|
  {
    SamePicks(k, s, s') && LinesCovered(xs, n, s, s')
  }

  ghost predicate SamePicks(k: nat, s: Picking, s': Picking) {
    && s.picked == s'.picked && s.reserve == s'.reserve && s.fill == s'.fill && s.lines == s'.lines
    && s'.ids <= s.ids
    && (s.fill > 0 ==> s.ids == s'.ids && |s.ids| + s.reserve + s.fill == k)
  }

  ghost predicate LinesCovered(xs: seq<Tagged>, n: nat, s: Picking, s': Picking)
    requires n <= |xs|
  {
    && (forall j :: 0 <= j < n ==> xs[j].candidate.routeId in s.lines)
    && (forall j :: 0 <= j < n && xs[j].kept ==> IdentityOf(xs[j].candidate) in s'.ids)
    && (forall j :: 0 <= j < |xs| && IdentityOf(xs[j].candidate) in s.ids ==> xs[j].candidate.routeId in s.lines)
  }

  /** By the time something is dropped, nothing is left to fill. */
  lemma NothingToFill(xs: seq<Tagged>, n: nat, k: nat, s: Picking, s': Picking)
    requires n < |xs| && InStep(xs, n, k, s, s') && Outnumbered(xs, k, n)
    ensures s.fill == 0 && xs[n].candidate.routeId in s.lines
  {
    var ids :| |ids| == k && AllKeptBefore(xs, n, ids);
    forall id | id in ids
      ensures id in s.ids
    {
      assert KeptBefore(xs, n, id);
    }
    SubsetSize(ids, s.ids);
  }

  lemma {:induction false} KeptTogether(xs: seq<Tagged>, n: nat, k: nat, s: Picking, s': Picking)
    requires OneLinePerTrip(xs) && n < |xs| && InStep(xs, n, k, s, s') && xs[n].kept
    ensures InStep(xs, n + 1, k, PickStep(s, xs[n].candidate), PickStep(s', xs[n].candidate))
  {
    var c := xs[n].candidate;
    assert IdentityOf(c) in s.ids ==> c.routeId in s.lines;
    KeptCovered(xs, n, s, s');
    hide LinesCovered, OneLinePerTrip;
  }

  lemma KeptCovered(xs: seq<Tagged>, n: nat, s: Picking, s': Picking)
    requires OneLinePerTrip(xs) && n < |xs| && LinesCovered(xs, n, s, s') && s.lines == s'.lines
    ensures LinesCovered(xs, n + 1, PickStep(s, xs[n].candidate), PickStep(s', xs[n].candidate))
  {
    var c := xs[n].candidate;
    var after, after' := PickStep(s, c), PickStep(s', c);
    assert IdentityOf(c) in s.ids ==> c.routeId in s.lines;
    assert after.lines == s.lines + {c.routeId} && after.ids == s.ids + {IdentityOf(c)};
    assert after'.ids == s'.ids + {IdentityOf(c)};
    hide PickStep;
  }

  lemma {:induction false} DroppedAlone(xs: seq<Tagged>, n: nat, k: nat, s: Picking, s': Picking)
    requires OneLinePerTrip(xs) && n < |xs| && InStep(xs, n, k, s, s') && !xs[n].kept && Outnumbered(xs, k, n)
    ensures InStep(xs, n + 1, k, PickStep(s, xs[n].candidate), s')
  {
    NothingToFill(xs, n, k, s, s');
    hide Outnumbered;
  }

  lemma {:induction false} StayInStep(xs: seq<Tagged>, n: nat, k: nat, start: Picking)
    requires OneLinePerTrip(xs) && n <= |xs|
    requires forall p :: 0 <= p < |xs| && !xs[p].kept ==> Outnumbered(xs, k, p)
    requires start.ids == {} && start.lines == {} && start.reserve + start.fill == k
    ensures InStep(xs, n, k, PickAll(start, Strip(xs[..n])), PickAll(start, Strip(Filter(xs[..n], IsKept))))
  {
    if n > 0 {
      StayInStep(xs, n - 1, k, start);
      NextInStep(xs, n - 1, k, start);
    }
  }

  lemma NextInStep(xs: seq<Tagged>, n: nat, k: nat, start: Picking)
    requires OneLinePerTrip(xs) && n < |xs| && (xs[n].kept || Outnumbered(xs, k, n))
    requires InStep(xs, n, k, PickAll(start, Strip(xs[..n])), PickAll(start, Strip(Filter(xs[..n], IsKept))))
    ensures InStep(xs, n + 1, k, PickAll(start, Strip(xs[..n + 1])), PickAll(start, Strip(Filter(xs[..n + 1], IsKept))))
  {
    hide InStep, OneLinePerTrip, PickStep, PickAll, Strip, Filter, Outnumbered;
    PickNext(xs, n, start);
    var s, s' := PickAll(start, Strip(xs[..n])), PickAll(start, Strip(Filter(xs[..n], IsKept)));
    if xs[n].kept {
      KeptTogether(xs, n, k, s, s');
    } else {
      DroppedAlone(xs, n, k, s, s');
    }
  }

  /** One more candidate, for the selection that sees all and for the one that sees those kept. */
  lemma PickNext(xs: seq<Tagged>, n: nat, start: Picking)
    requires n < |xs|
    ensures PickAll(start, Strip(xs[..n + 1])) == PickStep(PickAll(start, Strip(xs[..n])), xs[n].candidate)
    ensures var s' := PickAll(start, Strip(Filter(xs[..n], IsKept)));
            PickAll(start, Strip(Filter(xs[..n + 1], IsKept))) == if xs[n].kept then PickStep(s', xs[n].candidate) else s'
  {
    var front := xs[..n];
    assert xs[..n + 1] == front + [xs[n]];
    assert Strip(front + [xs[n]])[..n] == Strip(front);
    FilterAppend(front, [xs[n]], IsKept);
    var kept := Filter(front, IsKept);
    if xs[n].kept {
      assert Filter([xs[n]], IsKept) == [xs[n]];
      assert Strip(kept + [xs[n]])[..|kept|] == Strip(kept);
    } else {
      assert Filter([xs[n]], IsKept) == [];
      assert kept + [] == kept;
    }
  }

  lemma {:induction false} SameLines(xs: seq<Tagged>, k: nat)
    requires forall p :: 0 <= p < |xs| && !xs[p].kept ==> Outnumbered(xs, k, p)
    ensures Lines(Strip(xs)) == Lines(Strip(Filter(xs, IsKept)))
  {
    var kept := Filter(xs, IsKept);
    FilterMembers(xs, IsKept);
    forall line | line in Lines(Strip(xs))
      ensures line in Lines(Strip(kept))
    {
      var c :| c in Strip(xs) && c.routeId == line;
      var p :| 0 <= p < |xs| && xs[p].candidate == c;
      var j := p;
      if !xs[p].kept {
        j :| 0 <= j < p && xs[j].kept && xs[j].candidate.routeId == line;
      }
      assert xs[j] in kept;
      var m :| 0 <= m < |kept| && kept[m] == xs[j];
      assert Strip(kept)[m] in Strip(kept);
    }
    forall line | line in Lines(Strip(kept))
      ensures line in Lines(Strip(xs))
    {
      var c :| c in Strip(kept) && c.routeId == line;
      var m :| 0 <= m < |kept| && kept[m].candidate == c;
      assert kept[m] in xs;
      var p :| 0 <= p < |xs| && xs[p] == kept[m];
      assert Strip(xs)[p] in Strip(xs);
    }
  }

  /** Leaving out elements that `k` kept ones of their line precede does not change the selection, even when one of them
      was the first with its identity. */
  lemma DroppingChangesNothing(xs: seq<Tagged>, k: nat)
    requires OneLinePerTrip(xs)
    requires forall p :: 0 <= p < |xs| && !xs[p].kept ==> Outnumbered(xs, k, p)
    ensures Select(Strip(xs), k) == Select(Strip(Filter(xs, IsKept)), k)
  {
    SameLines(xs, k);
    StayInStep(xs, |xs|, k, Opening(Strip(xs), k));
    assert xs[..|xs|] == xs;
  }

  // ---------------------------------------------------------------- every line is represented

  function Identities(xs: seq<Candidate>): set<Identity> {
    set c | c in xs :: IdentityOf(c)
  }

  /** `c` is the first candidate of its line. */
  ghost predicate FirstOfLine(xs: seq<Candidate>, c: Candidate) {
    exists i :: 0 <= i < |xs| && xs[i] == c && forall j :: 0 <= j < i ==> xs[j].routeId != c.routeId
  }

  /** The first candidate of the line is picked. */
  ghost predicate Represented(xs: seq<Candidate>, picked: seq<Candidate>, line: Id) {
    exists c :: c in picked && c.routeId == line && FirstOfLine(xs, c)
  }

  /** Where the selection stands after a prefix: places used, lines represented. */
  ghost predicate OnTrack(xs: seq<Candidate>, n: nat, k: nat, s: Picking)
    requires n <= |xs|
  {
    var first := Opening(xs, k);
    && s.lines == Lines(xs[..n]) && s.ids == Identities(xs[..n])
    && s.reserve <= first.reserve && s.fill <= first.fill
    && |s.picked| + s.reserve + s.fill == k
    && Lines(s.picked) <= s.lines && |Lines(s.picked)| == first.reserve - s.reserve
    && |s.lines| + s.reserve >= first.reserve && (s.reserve > 0 ==> |s.lines| + s.reserve == first.reserve)
    && (s.fill > 0 ==> s.lines == Lines(s.picked) && |s.picked| == |s.ids|)
    && |s.picked| <= |s.ids|
    && forall line :: line in Lines(s.picked) ==> Represented(xs, s.picked, line)
  }

  lemma LinesSnoc(xs: seq<Candidate>, c: Candidate)
    ensures Lines(xs + [c]) == Lines(xs) + {c.routeId}
    ensures Identities(xs + [c]) == Identities(xs) + {IdentityOf(c)}
  {
    assert c in xs + [c];
    assert forall x :: x in xs + [c] <==> x in xs || x == c;
    forall x | x in xs
      ensures x.routeId in Lines(xs + [c]) && IdentityOf(x) in Identities(xs + [c])
    {
      assert x in xs + [c];
    }
  }

  lemma StaysRepresented(xs: seq<Candidate>, picked: seq<Candidate>, c: Candidate, line: Id)
    requires Represented(xs, picked, line)
    ensures Represented(xs, picked + [c], line)
  {
    var f :| f in picked && f.routeId == line && FirstOfLine(xs, f);
    assert f in picked + [c];
  }

  lemma NewLineIsFirst(xs: seq<Candidate>, n: nat)
    requires n < |xs| && xs[n].routeId !in Lines(xs[..n])
    ensures FirstOfLine(xs, xs[n])
  {
    forall j | 0 <= j < n
      ensures xs[j].routeId != xs[n].routeId
    {
      assert xs[..n][j] in xs[..n];
    }
  }

  /** A place is free for a new line as long as one was opened for it. */
  lemma RoomForLine(xs: seq<Candidate>, n: nat, k: nat, s: Picking)
    requires n < |xs| && OnTrack(xs, n, k, s) && xs[n].routeId !in s.lines && s.fill > 0
    ensures s.reserve > 0
  {
    assert xs[n] in xs;
    assert xs[n].routeId in Lines(xs);
    forall line | line in s.lines
      ensures line in Lines(xs)
    {
      var c :| c in xs[..n] && c.routeId == line;
      assert c in xs;
    }
    SubsetSize(s.lines + {xs[n].routeId}, Lines(xs));
  }

  ghost predicate OneLine(xs: seq<Candidate>) {
    forall x, y :: x in xs && y in xs && x.tripId == y.tripId ==> x.routeId == y.routeId
  }

  lemma PickRepresents(xs: seq<Candidate>, picked: seq<Candidate>, c: Candidate)
    requires forall line :: line in Lines(picked) ==> Represented(xs, picked, line)
    requires c.routeId in Lines(picked) || FirstOfLine(xs, c)
    ensures forall line :: line in Lines(picked + [c]) ==> Represented(xs, picked + [c], line)
  {
    LinesSnoc(picked, c);
    forall line | line in Lines(picked + [c])
      ensures Represented(xs, picked + [c], line)
    {
      if line in Lines(picked) {
        StaysRepresented(xs, picked, c, line);
      } else {
        assert c in picked + [c];
      }
    }
  }

  lemma {:induction false} TrackStep(xs: seq<Candidate>, n: nat, k: nat, s: Picking)
    requires OneLine(xs) && n < |xs| && OnTrack(xs, n, k, s)
    ensures OnTrack(xs, n + 1, k, PickStep(s, xs[n]))
  {
    var c := xs[n];
    assert xs[..n + 1] == xs[..n] + [c];
    LinesSnoc(xs[..n], c);
    LinesSnoc(s.picked, c);
    if IdentityOf(c) in s.ids {
      var x :| x in xs[..n] && IdentityOf(x) == IdentityOf(c);
      assert x in xs && c in xs;
      assert c.routeId in s.lines;
    } else {
      TrackNew(xs, n, k, s);
    }
  }

  lemma {:induction false} TrackNew(xs: seq<Candidate>, n: nat, k: nat, s: Picking)
    requires n < |xs| && OnTrack(xs, n, k, s) && IdentityOf(xs[n]) !in s.ids
    requires Lines(xs[..n + 1]) == s.lines + {xs[n].routeId} && Identities(xs[..n + 1]) == s.ids + {IdentityOf(xs[n])}
    requires Lines(s.picked + [xs[n]]) == Lines(s.picked) + {xs[n].routeId}
    ensures OnTrack(xs, n + 1, k, PickStep(s, xs[n]))
  {
    hide Lines, Identities, Represented, FirstOfLine;
    var c := xs[n];
    assert |s.ids + {IdentityOf(c)}| == |s.ids| + 1;
    if c.routeId !in s.lines {
      NewLineIsFirst(xs, n);
      if s.fill > 0 {
        RoomForLine(xs, n, k, s);
      }
      if s.reserve > 0 {
        PickRepresents(xs, s.picked, c);
      }
    } else {
      assert s.lines + {c.routeId} == s.lines;
      if s.fill > 0 {
        PickRepresents(xs, s.picked, c);
      }
    }
  }

  lemma {:induction false} StayOnTrack(xs: seq<Candidate>, n: nat, k: nat)
    requires OneLine(xs) && n <= |xs|
    ensures OnTrack(xs, n, k, PickAll(Opening(xs, k), xs[..n]))
  {
    hide OnTrack, OneLine, PickStep, Opening, PickAll;
    if n > 0 {
      StayOnTrack(xs, n - 1, k);
      PickLast(Opening(xs, k), xs, n - 1);
      TrackStep(xs, n - 1, k, PickAll(Opening(xs, k), xs[..n - 1]));
    } else {
      NothingTracked(xs, k);
    }
  }

  lemma NothingTracked(xs: seq<Candidate>, k: nat)
    ensures OnTrack(xs, 0, k, PickAll(Opening(xs, k), xs[..0]))
  {
    assert xs[..0] == [] && Lines([]) == {} && Identities([]) == {};
  }

  /** The selection has as many candidates and covers as many lines as the limit allows, and each line it covers is
      represented by its first candidate. */
  lemma SelectionCoversLines(xs: seq<Candidate>, k: nat)
    requires OneLine(xs)
    ensures var picked := Select(xs, k);
            && |picked| == Min(k, |Identities(xs)|)
            && |Lines(picked)| == Min(k, |Lines(xs)|)
            && forall line :: line in Lines(picked) ==> Represented(xs, picked, line)
  {
    StayOnTrack(xs, |xs|, k);
    assert xs[..|xs|] == xs;
  }

  // ---------------------------------------------------------------- the selection as the code runs it

  /** The first candidate of each identity. */
  function Dedup(xs: seq<Candidate>): seq<Candidate> {
    if |xs| == 0 then []
    else
      var front := xs[..|xs| - 1];
      if IdentityOf(xs[|xs| - 1]) in Identities(front) then Dedup(front) else Dedup(front) + [xs[|xs| - 1]]
  }

  ghost predicate DistinctIdentities(xs: seq<Candidate>) {
    forall i, j :: 0 <= i < j < |xs| ==> IdentityOf(xs[i]) != IdentityOf(xs[j])
  }

  lemma {:induction false} DedupKeeps(xs: seq<Candidate>)
    ensures DistinctIdentities(Dedup(xs)) && Identities(Dedup(xs)) == Identities(xs)
    ensures OneLine(xs) ==> Lines(Dedup(xs)) == Lines(xs)
    ensures forall c :: c in Dedup(xs) ==> c in xs
  {
    hide Lines, Identities, OneLine, DistinctIdentities;
    if |xs| > 0 {
      var front, c := xs[..|xs| - 1], xs[|xs| - 1];
      assert xs == front + [c];
      DedupKeeps(front);
      LinesSnoc(front, c);
      LinesSnoc(Dedup(front), c);
      if IdentityOf(c) in Identities(front) {
        SeenAgain(front, c);
      } else {
        StillDistinct(Dedup(front), c);
        FewerOneLine(front, c);
      }
    } else {
      StillDistinct([], Candidate(0, 0, 0, 0, 0, 0, 0, 0, 0));
    }
  }

  /** A candidate seen before adds no identity, and no line when trips keep their line. */
  lemma SeenAgain(front: seq<Candidate>, c: Candidate)
    requires IdentityOf(c) in Identities(front)
    ensures Identities(front) + {IdentityOf(c)} == Identities(front)
    ensures OneLine(front + [c]) ==> OneLine(front) && Lines(front) + {c.routeId} == Lines(front)
  {
    var x :| x in front && IdentityOf(x) == IdentityOf(c);
    assert x in front + [c] && c in front + [c];
    FewerOneLine(front, c);
  }

  lemma FewerOneLine(front: seq<Candidate>, c: Candidate)
    ensures OneLine(front + [c]) ==> OneLine(front)
  {
    assert forall x :: x in front ==> x in front + [c];
  }

  lemma StillDistinct(xs: seq<Candidate>, c: Candidate)
    ensures DistinctIdentities([])
    ensures DistinctIdentities(xs) && IdentityOf(c) !in Identities(xs) ==> DistinctIdentities(xs + [c])
  {
    assert forall i :: 0 <= i < |xs| ==> xs[i] in xs;
  }

  lemma PickSnoc(start: Picking, xs: seq<Candidate>, c: Candidate)
    ensures PickAll(start, xs + [c]) == PickStep(PickAll(start, xs), c)
  {
    assert (xs + [c])[..|xs|] == xs;
    hide PickStep;
  }

  lemma {:induction false} PickDedup(start: Picking, xs: seq<Candidate>)
    requires start.ids == {}
    ensures PickAll(start, Dedup(xs)) == PickAll(start, xs) && PickAll(start, xs).ids == Identities(xs)
  {
    hide IdentityOf, Lines, PickStep;
    if |xs| > 0 {
      var front, c := xs[..|xs| - 1], xs[|xs| - 1];
      assert xs == front + [c];
      PickDedup(start, front);
      LinesSnoc(front, c);
      PickSnoc(start, Dedup(front), c);
      PickAgain(PickAll(start, front), c);
    }
  }

  lemma PickAgain(s: Picking, c: Candidate)
    ensures PickStep(s, c).ids == s.ids + {IdentityOf(c)}
    ensures IdentityOf(c) in s.ids ==> PickStep(s, c) == s
  {
  }

  lemma SelectDedup(xs: seq<Candidate>, k: nat)
    requires OneLine(xs)
    ensures Select(Dedup(xs), k) == Select(xs, k)
  {
    DedupKeeps(xs);
    hide Dedup, PickAll, OneLine;
    PickDedup(Opening(xs, k), xs);
  }

  /** `i` is the first of its line. */
  predicate IsFirst(xs: seq<Candidate>, i: nat)
    requires i < |xs|
  {
    xs[i].routeId !in Lines(xs[..i])
  }

  /** How many of the first `n` are the first of their line. */
  function Rank(xs: seq<Candidate>, n: nat): nat
    requires n <= |xs|
  {
    if n == 0 then 0 else Rank(xs, n - 1) + if IsFirst(xs, n - 1) then 1 else 0
  }

  predicate Reserved(xs: seq<Candidate>, k: nat, i: nat)
    requires i < |xs|
  {
    IsFirst(xs, i) && Rank(xs, i) < k
  }

  /** How many of the first `n` are not reserved. */
  function FreeRank(xs: seq<Candidate>, k: nat, n: nat): nat
    requires n <= |xs|
  {
    if n == 0 then 0 else FreeRank(xs, k, n - 1) + if Reserved(xs, k, n - 1) then 0 else 1
  }

  predicate Chosen(xs: seq<Candidate>, k: nat, i: nat)
    requires i < |xs|
  {
    Reserved(xs, k, i) || FreeRank(xs, k, i) < k - Min(k, Rank(xs, |xs|))
  }

  function ChosenBelow(xs: seq<Candidate>, k: nat, n: nat): seq<Candidate>
    requires n <= |xs|
  {
    if n == 0 then [] else ChosenBelow(xs, k, n - 1) + if Chosen(xs, k, n - 1) then [xs[n - 1]] else []
  }

  lemma {:induction false} RankIsLines(xs: seq<Candidate>, n: nat)
    requires n <= |xs|
    ensures Rank(xs, n) == |Lines(xs[..n])|
  {
    if n > 0 {
      RankIsLines(xs, n - 1);
      assert xs[..n] == xs[..n - 1] + [xs[n - 1]];
      LinesSnoc(xs[..n - 1], xs[n - 1]);
      var known, line := Lines(xs[..n - 1]), xs[n - 1].routeId;
      assert |known + {line}| == |known| + if line in known then 0 else 1 by {
        assert line in known ==> known + {line} == known;
      }
    } else {
      assert Lines(xs[..0]) == {};
    }
  }

  lemma {:induction false} RankGrows(xs: seq<Candidate>, m: nat, n: nat, k: nat)
    requires m <= n <= |xs|
    ensures Rank(xs, m) <= Rank(xs, n) && FreeRank(xs, k, m) <= FreeRank(xs, k, n)
    ensures m < n && IsFirst(xs, m) ==> Rank(xs, m) < Rank(xs, n)
    ensures m < n && !Reserved(xs, k, m) ==> FreeRank(xs, k, m) < FreeRank(xs, k, n)
    decreases n
  {
    if m < n {
      RankGrows(xs, m, n - 1, k);
    }
  }

  /** The counters of the pass after `n` candidates. */
  ghost predicate Counted(xs: seq<Candidate>, n: nat, k: nat, s: Picking)
    requires n <= |xs|
  {
    var reserve := Min(k, Rank(xs, |xs|));
    && s.picked == ChosenBelow(xs, k, n)
    && s.lines == Lines(xs[..n]) && s.ids == Identities(xs[..n])
    && s.reserve == Max(0, reserve - Rank(xs, n))
    && s.fill == Max(0, k - reserve - FreeRank(xs, k, n))
  }

  lemma NewIdentity(xs: seq<Candidate>, n: nat)
    requires n < |xs| && DistinctIdentities(xs)
    ensures IdentityOf(xs[n]) !in Identities(xs[..n])
  {
    forall x | x in xs[..n]
      ensures IdentityOf(x) != IdentityOf(xs[n])
    {
      var j :| 0 <= j < n && xs[..n][j] == x;
    }
  }

  lemma {:induction false} CountedStep(xs: seq<Candidate>, n: nat, k: nat, s: Picking)
    requires n < |xs| && DistinctIdentities(xs) && Counted(xs, n, k, s)
    ensures Counted(xs, n + 1, k, PickStep(s, xs[n]))
  {
    hide Lines, Identities, DistinctIdentities;
    MoreLines(xs, n);
    RankGrows(xs, n, |xs|, k);
    NewIdentity(xs, n);
  }

  lemma MoreLines(xs: seq<Candidate>, n: nat)
    requires n < |xs|
    ensures Lines(xs[..n + 1]) == Lines(xs[..n]) + {xs[n].routeId}
    ensures Identities(xs[..n + 1]) == Identities(xs[..n]) + {IdentityOf(xs[n])}
  {
    assert xs[..n + 1] == xs[..n] + [xs[n]];
    hide Lines, Identities;
    LinesSnoc(xs[..n], xs[n]);
  }

  /** One pass with counters picks what choosing by rank picks. */
  lemma {:induction false} PassIsChoice(xs: seq<Candidate>, n: nat, k: nat)
    requires n <= |xs| && DistinctIdentities(xs)
    ensures Counted(xs, n, k, PickAll(Opening(xs, k), xs[..n]))
  {
    hide Counted, DistinctIdentities, PickStep, Opening, PickAll;
    if n > 0 {
      PassIsChoice(xs, n - 1, k);
      PickLast(Opening(xs, k), xs, n - 1);
      CountedStep(xs, n - 1, k, PickAll(Opening(xs, k), xs[..n - 1]));
    } else {
      NothingCounted(xs, k);
    }
  }

  lemma PickLast(start: Picking, xs: seq<Candidate>, n: nat)
    requires n < |xs|
    ensures PickAll(start, xs[..n + 1]) == PickStep(PickAll(start, xs[..n]), xs[n])
  {
    assert xs[..n + 1][..n] == xs[..n];
    hide PickStep;
  }

  lemma NothingCounted(xs: seq<Candidate>, k: nat)
    ensures Counted(xs, 0, k, PickAll(Opening(xs, k), xs[..0]))
  {
    RankIsLines(xs, |xs|);
    assert xs[..|xs|] == xs && xs[..0] == [];
    assert Lines([]) == {} && Identities([]) == {};
    hide Lines, Identities;
  }
}
