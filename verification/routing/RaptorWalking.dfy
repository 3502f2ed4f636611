/** The walking closure at the end of a round: which links are settled, and why the worklist ends with all of them. */
module RaptorWalking {
  import opened Machine
  import opened Network
  import opened Itineraries
  import opened RaptorInvariant

  /** Walking `l` from a label at `departure` cannot improve `best`, or not below the target bound. */
  predicate LinkSettled(best: seq<U32>, departure: U32, l: Link, bound: U32) {
    && l.to < |best|
    && (best[l.to] <= SatAdd(departure, l.seconds) || bound <= SatAdd(departure, l.seconds))
  }

  ghost predicate Settled(q: Query, f: Front, stop: nat, bound: U32)
    requires stop < |f.row|
  {
    forall l :: l in Links(q, stop) ==> LinkSettled(f.best, f.row[stop], l, bound)
  }

  /** Every labelled stop other than `except` is settled or still queued. */
  ghost predicate Pending(q: Query, f: Front, queue: seq<nat>, bound: U32, except: int) {
    && (forall s :: s in queue ==> s < |f.row|)
    && (forall s :: 0 <= s < |f.row| && f.row[s] < U32_MAX && s != except ==> s in queue || Settled(q, f, s, bound))
  }

  ghost predicate WalksBelow(f: Front, bound: U32) {
    forall s :: s in f.parents && f.parents[s].WalkFrom? ==> s < |f.row| && f.row[s] < bound
  }

  /** A walk's recorded departure is the current label of the stop it starts from. */
  ghost predicate WalksTight(f: Front) {
    forall s :: s in f.parents && f.parents[s].WalkFrom? ==>
      var p := f.parents[s].previousStop; p < |f.row| && f.row[p] == f.parents[s].departure
  }

  function Sum(xs: seq<U32>): nat {
    if |xs| == 0 then 0 else xs[0] + Sum(xs[1..])
  }

  lemma {:induction false} SumDrops(xs: seq<U32>, i: nat, x: U32)
    requires i < |xs| && x < xs[i]
    ensures Sum(xs[i := x]) < Sum(xs)
  {
    if i > 0 {
      SumDrops(xs[1..], i - 1, x);
      assert xs[i := x][1..] == xs[1..][i - 1 := x];
    } else {
      assert xs[i := x][1..] == xs[1..];
    }
  }

  /** The first `n` links of `from` have been followed. */
  ghost predicate Following(q: Query, past: Past, f: Front, queue: seq<nat>, bound: U32, from: nat, n: nat) {
    && RoundInvariant(q, past, f)
    && bound <= past.bound
    && from < q.stopCount
    && f.row[from] < U32_MAX
    && Pending(q, f, queue, bound, from)
    && WalksBelow(f, bound)
    && n <= |Links(q, from)|
    && forall m :: 0 <= m < n ==> LinkSettled(f.best, f.row[from], Links(q, from)[m], bound)
  }

  /** The label a link would set. */
  function WalkWrite(f: Front, from: nat, l: Link): Front
    requires from < |f.row| == |f.stamp| == |f.best| == |f.flags| && l.to < |f.row|
  {
    var time := SatAdd(f.row[from], l.seconds);
    Write(f, l.to, time, WalkFrom(from, f.row[from], time))
  }

  /** Following one link that improves: the write is sound, and only the stop walked to is no longer settled. */
  lemma FollowLink(q: Query, past: Past, f: Front, queue: seq<nat>, bound: U32, from: nat, n: nat)
    requires Following(q, past, f, queue, bound, from, n) && n < |Links(q, from)|
    requires var l := Links(q, from)[n];
             && l.to < q.stopCount
             && SatAdd(f.row[from], l.seconds) < bound && SatAdd(f.row[from], l.seconds) < f.best[l.to]
    ensures var l := Links(q, from)[n];
            var g := WalkWrite(f, from, l);
            && Following(q, past, g, queue + [l.to], bound, from, n + 1)
            && NoLater(g.best, f.best)
            && Sum(g.best) < Sum(f.best)
            && g.row[from] == f.row[from]
  {
    var l := Links(q, from)[n];
    var time := SatAdd(f.row[from], l.seconds);
    var parent := WalkFrom(from, f.row[from], time);
    assert l in Links(q, from);
    WalkKeepsRound(q, past, f, from, l);
    hide RoundInvariant, Links;
    SumDrops(f.best, l.to, time);
    WriteKeepsPending(q, f, queue, bound, from, l.to, time, parent);
    hide Pending;
    WriteKeepsWalksBelow(f, bound, l.to, time, parent);
    hide WalksBelow;
    WriteKeepsLinks(f, Links(q, from), n, bound, from);
  }

  /** The label a link sets is sound. */
  lemma WalkKeepsRound(q: Query, past: Past, f: Front, from: nat, l: Link)
    requires RoundInvariant(q, past, f) && from < q.stopCount && l.to < q.stopCount && l in Links(q, from)
    requires f.row[from] < U32_MAX
    requires SatAdd(f.row[from], l.seconds) < past.bound && SatAdd(f.row[from], l.seconds) < f.best[l.to]
    ensures RoundInvariant(q, past, WalkWrite(f, from, l)) && l.to != from
  {
    var time := SatAdd(f.row[from], l.seconds);
    assert time == f.row[from] + l.seconds;
    assert LinkUsed(q, from, l.to, f.row[from], time);
    WriteKeepsRound(q, past, f, l.to, time, WalkFrom(from, f.row[from], time));
  }

  lemma WriteKeepsWalksBelow(f: Front, bound: U32, stop: nat, time: U32, parent: Parent)
    requires stop < |f.row| == |f.stamp| == |f.best| == |f.flags|
    requires WalksBelow(f, bound) && time < bound
    ensures WalksBelow(Write(f, stop, time, parent), bound)
  {
  }

  lemma WriteKeepsLinks(f: Front, links: seq<Link>, n: nat, bound: U32, from: nat)
    requires n < |links| && links[n].to < |f.row|
    requires from < |f.row| == |f.stamp| == |f.best| == |f.flags|
    requires forall m :: 0 <= m < n ==> LinkSettled(f.best, f.row[from], links[m], bound)
    requires SatAdd(f.row[from], links[n].seconds) < f.best[links[n].to]
    ensures var best := WalkWrite(f, from, links[n]).best;
            forall m :: 0 <= m < n + 1 ==> LinkSettled(best, f.row[from], links[m], bound)
  {
    var best := WalkWrite(f, from, links[n]).best;
    forall m | 0 <= m < n + 1
      ensures LinkSettled(best, f.row[from], links[m], bound)
    {
      if m < n {
        assert LinkSettled(f.best, f.row[from], links[m], bound);
      }
    }
  }

  lemma WriteKeepsPending(q: Query, f: Front, queue: seq<nat>, bound: U32, except: int, stop: nat, time: U32,
                          parent: Parent)
    requires stop < |f.row| == |f.stamp| == |f.best| == |f.flags| && time < f.best[stop]
    requires Pending(q, f, queue, bound, except)
    ensures Pending(q, Write(f, stop, time, parent), queue + [stop], bound, except)
  {
    var g := Write(f, stop, time, parent);
    forall s | 0 <= s < |g.row| && g.row[s] < U32_MAX && s != except
      ensures s in queue + [stop] || Settled(q, g, s, bound)
    {
      if s != stop && s !in queue {
        SettledStays(q, f, g, s, bound);
      }
    }
  }

  lemma StartFollowing(q: Query, past: Past, f: Front, queue: seq<nat>, bound: U32)
    requires RoundInvariant(q, past, f) && bound <= past.bound
    requires |queue| > 0 && Pending(q, f, queue, bound, -1) && WalksBelow(f, bound)
    ensures var from := queue[|queue| - 1];
            var rest := queue[..|queue| - 1];
            && from < q.stopCount == |f.row|
            && (f.row[from] == U32_MAX ==> Pending(q, f, rest, bound, -1))
            && (f.row[from] < U32_MAX ==> Following(q, past, f, rest, bound, from, 0))
  {
    var from := queue[|queue| - 1];
    var rest := queue[..|queue| - 1];
    assert queue == rest + [from];
    assert from in queue;
    forall s | s in rest
      ensures s in queue && s < |f.row|
    {
    }
    forall s | s in queue && s != from
      ensures s in rest
    {
    }
  }

  lemma FollowedAll(q: Query, past: Past, f: Front, queue: seq<nat>, bound: U32, from: nat)
    requires Following(q, past, f, queue, bound, from, |Links(q, from)|)
    ensures RoundInvariant(q, past, f) && Pending(q, f, queue, bound, -1) && WalksBelow(f, bound)
  {
    assert Settled(q, f, from, bound);
  }

  /** Following one link that does not improve. */
  lemma SkipLink(q: Query, past: Past, f: Front, queue: seq<nat>, bound: U32, from: nat, n: nat)
    requires Following(q, past, f, queue, bound, from, n) && n < |Links(q, from)|
    requires LinkSettled(f.best, f.row[from], Links(q, from)[n], bound)
    ensures Following(q, past, f, queue, bound, from, n + 1)
  {
  }

  /** Lower best times never unsettle a stop whose own label is unchanged. */
  lemma SettledStays(q: Query, f: Front, g: Front, stop: nat, bound: U32)
    requires stop < |f.row| && stop < |g.row| && g.row[stop] == f.row[stop]
    requires NoLater(g.best, f.best)
    requires Settled(q, f, stop, bound)
    ensures Settled(q, g, stop, bound)
  {
    forall l | l in Links(q, stop)
      ensures LinkSettled(g.best, g.row[stop], l, bound)
    {
      assert LinkSettled(f.best, f.row[stop], l, bound);
    }
  }

  /** When every labelled stop is settled, each walk starts exactly at the label of its first stop: had that label
      improved since, the same link would now be an unsettled improvement. */
  lemma SettledMeansTight(q: Query, past: Past, f: Front, bound: U32)
    requires RoundInvariant(q, past, f) && WalksBelow(f, bound)
    requires Pending(q, f, [], bound, -1)
    ensures WalksTight(f)
  {
    forall s | s in f.parents && f.parents[s].WalkFrom?
      ensures var p := f.parents[s].previousStop; p < |f.row| && f.row[p] == f.parents[s].departure
    {
      var parent := f.parents[s];
      var p := parent.previousStop;
      assert Explained(q, past, f, s);
      var l :| l in Links(q, p) && l.to == s && parent.departure + l.seconds == parent.arrival;
      assert f.row[p] < U32_MAX && Settled(q, f, p, bound);
      assert LinkSettled(f.best, f.row[p], l, bound);
    }
  }
}
