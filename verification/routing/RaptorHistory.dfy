/** What the rounds of a finished search have in common, and what follows for itineraries. */
module RaptorHistory {
  import opened Machine
  import opened Itineraries
  import opened RaptorInvariant
  import opened RaptorWalking
  import opened RaptorScanning

  ghost function Unreached(n: nat): seq<U32> {
    seq(n, _ => U32_MAX)
  }

  ghost predicate TargetsKnown(q: Query) {
    forall s :: s in q.targets ==> s < q.stopCount
  }

  /** What round 0 starts from. */
  ghost function BeforeAll(q: Query): Past {
    Past(Unreached(q.stopCount), Unreached(q.stopCount), map[], U32_MAX)
  }

  /** What the round after `f` starts from. */
  ghost function PastAfter(q: Query, f: Front): Past
    requires TargetsKnown(q) && |f.best| == q.stopCount
  {
    Past(f.best, f.row, f.parents, TargetBound(q.targets, f.best))
  }

  /** Round `f` has been completed: no ride from the round before and no link from this round is left to try. */
  ghost predicate Finished(q: Query, past: Past, f: Front) {
    && TargetsKnown(q)
    && RoundInvariant(q, past, f)
    && Pending(q, f, [], TargetBound(q.targets, f.best), -1)
    && WalksTight(f)
    && (f.round > 0 ==> AllServed(q, f.round, past, f.best, TargetBound(q.targets, f.best)))
  }

  ghost predicate RoundDone(q: Query, done: seq<Front>, k: nat) {
    && k < |done|
    && done[k].round == k
    && Finished(q, PastOf(q, done, k), done[k])
  }

  /** The completed rounds in order. */
  ghost predicate History(q: Query, done: seq<Front>) {
    && TargetsKnown(q)
    && (forall k :: 0 <= k < |done| ==> |done[k].best| == |done[k].row| == |done[k].stamp| == q.stopCount)
    && forall k {:trigger RoundDone(q, done, k)} :: 0 <= k < |done| ==> RoundDone(q, done, k)
  }

  ghost function PastOf(q: Query, done: seq<Front>, k: nat): Past {
    if 0 < k <= |done| && TargetsKnown(q) && |done[k - 1].best| == q.stopCount then PastAfter(q, done[k - 1])
    else BeforeAll(q)
  }

  ghost predicate Unlabelled(row: seq<U32>) {
    forall s :: 0 <= s < |row| ==> row[s] == U32_MAX
  }

  /** The search stopped because its rounds were used up or the last one found nothing. */
  ghost predicate Complete(q: Query, done: seq<Front>) {
    && 0 < |done| <= q.maxTransfers + 2
    && (|done| == q.maxTransfers + 2 || Unlabelled(done[|done| - 1].row))
  }

  // ---------------------------------------------------------------- opening and closing a round

  /** Every stop the last round labelled is marked, and only its flags are set. */
  lemma MarkedBefore(q: Query, done: seq<Front>)
    requires History(q, done) && |done| > 0
    ensures var f := done[|done| - 1];
            && |f.flags| == q.stopCount && PastOf(q, done, |done|).row == f.row
            && (forall s :: s in f.marked ==> s < q.stopCount)
            && (forall s :: 0 <= s < q.stopCount && f.flags[s] ==> s in f.marked)
            && (forall s :: 0 <= s < q.stopCount && f.row[s] < U32_MAX ==> s in f.marked)
  {
    assert RoundDone(q, done, |done| - 1);
  }

  /** A round opens with no labels. */
  lemma FreshRound(q: Query, done: seq<Front>, f: Front)
    requires History(q, done) && |done| > 0 && f.round == |done|
    requires Unlabelled(f.row) && |f.row| == q.stopCount && f.parents == map[] && |f.stamp| == q.stopCount
    requires f.best == done[|done| - 1].best && f.marked == [] && f.flags == seq(q.stopCount, _ => false)
    ensures RoundInvariant(q, PastOf(q, done, |done|), f) && RidesOnly(f)
  {
    assert RoundDone(q, done, |done| - 1);
    hide Explained, WalksTight, Pending, AllServed, Served;
  }

  lemma AllServedStays(q: Query, round: nat, past: Past, best: seq<U32>, bound: U32, lower: seq<U32>)
    requires AllServed(q, round, past, best, bound) && NoLater(lower, best)
    ensures AllServed(q, round, past, lower, bound)
  {
    forall r: nat | RouteAllowed(q, r)
      ensures Served(q, round, past, r, lower, bound, 0, |q.tt.routes[r].stopIndices|)
    {
      ServedStays(q, round, past, r, best, bound, 0, |q.tt.routes[r].stopIndices|, lower);
    }
  }

  /** Bounds only fall: what is settled against the bound computed before the walks is settled against the final one. */
  lemma CloseRound(q: Query, past: Past, f: Front, bound: U32)
    requires TargetsKnown(q) && RoundInvariant(q, past, f) && WalksTight(f)
    requires Pending(q, f, [], bound, -1) && TargetBound(q.targets, f.best) <= bound
    requires f.round > 0 ==> bound <= past.bound && AllServed(q, f.round, past, f.best, past.bound)
    ensures Finished(q, past, f)
  {
    var final := TargetBound(q.targets, f.best);
    forall s | 0 <= s < |f.row| && f.row[s] < U32_MAX
      ensures Settled(q, f, s, final)
    {
      assert Settled(q, f, s, bound);
      forall l | l in Links(q, s)
        ensures LinkSettled(f.best, f.row[s], l, final)
      {
        assert LinkSettled(f.best, f.row[s], l, bound);
      }
    }
    if f.round > 0 {
      forall r: nat | RouteAllowed(q, r)
        ensures Served(q, f.round, past, r, f.best, final, 0, |q.tt.routes[r].stopIndices|)
      {
        ServedBelow(q, f.round, past, r, f.best, past.bound, final, |q.tt.routes[r].stopIndices|);
      }
    }
  }

  lemma ServedBelow(q: Query, round: nat, past: Past, r: nat, best: seq<U32>, bound: U32, lower: U32, index: nat)
    requires Served(q, round, past, r, best, bound, 0, index) && lower <= bound
    ensures Served(q, round, past, r, best, lower, 0, index)
  {
    if Orderly(q, r) {
      forall t, i, j | 0 <= i < j < index && CanBoard(q, round, past, r, t, i) && DropsOff(q, r, t, j)
        ensures Reached(best, lower, StopAt(q, r, j), Arrival(q, r, t, j))
      {
        assert Reached(best, bound, StopAt(q, r, j), Arrival(q, r, t, j));
      }
    }
  }

  /** The label arrays hold the completed rounds, and the later rounds are empty. */
  ghost predicate Holds(rounds: seq<seq<U32>>, parents: seq<map<nat, Parent>>, done: seq<Front>) {
    && |done| <= |rounds| == |parents|
    && (forall k :: 0 <= k < |done| ==> rounds[k] == done[k].row && parents[k] == done[k].parents)
    && (forall k :: |done| <= k < |rounds| ==> Unlabelled(rounds[k]) && parents[k] == map[])
  }

  /** A round that marked nothing labelled nothing. */
  lemma NothingMarked(q: Query, done: seq<Front>)
    requires History(q, done) && |done| > 0 && done[|done| - 1].marked == []
    ensures Unlabelled(done[|done| - 1].row)
  {
    assert RoundDone(q, done, |done| - 1);
  }

  lemma HoldsMore(rounds: seq<seq<U32>>, parents: seq<map<nat, Parent>>, done: seq<Front>,
                  rounds': seq<seq<U32>>, parents': seq<map<nat, Parent>>, f: Front)
    requires Holds(rounds, parents, done) && |done| < |rounds| == |rounds'| == |parents'|
    requires rounds'[|done|] == f.row && parents'[|done|] == f.parents
    requires forall k :: 0 <= k < |rounds| && k != |done| ==> rounds'[k] == rounds[k] && parents'[k] == parents[k]
    ensures Holds(rounds', parents', done + [f])
  {
  }

  lemma HistoryGrows(q: Query, done: seq<Front>, f: Front)
    requires History(q, done) && f.round == |done|
    requires Finished(q, PastOf(q, done, |done|), f)
    ensures History(q, done + [f])
  {
    var longer := done + [f];
    forall k | 0 <= k < |longer|
      ensures RoundDone(q, longer, k)
    {
      assert k < |done| ==> RoundDone(q, done, k) && longer[k] == done[k];
      assert PastOf(q, longer, k) == PastOf(q, done, k);
    }
  }

  /** A finished round that leaves the others alone extends what the arrays hold. */
  lemma RoundAppended(q: Query, done: seq<Front>, f: Front, rounds: seq<seq<U32>>, parents: seq<map<nat, Parent>>,
                      rounds': seq<seq<U32>>, parents': seq<map<nat, Parent>>)
    requires History(q, done) && f.round == |done| && Finished(q, PastOf(q, done, |done|), f)
    requires Holds(rounds, parents, done) && |done| < |rounds| == |rounds'| == |parents'|
    requires rounds'[|done|] == f.row && parents'[|done|] == f.parents
    requires forall k :: 0 <= k < |rounds| && k != |done| ==> rounds'[k] == rounds[k] && parents'[k] == parents[k]
    ensures History(q, done + [f]) && Holds(rounds', parents', done + [f])
  {
    HoldsMore(rounds, parents, done, rounds', parents', f);
    hide Holds;
    HistoryGrows(q, done, f);
  }

  /** Once the origins carry the departure time, round 0 is under way. */
  lemma Seeded(q: Query, f: Front)
    requires f.round == 0 && f.parents == map[] && TargetsKnown(q)
    requires |f.row| == |f.stamp| == |f.best| == |f.flags| == q.stopCount
    requires forall s :: s in q.origins ==> s < q.stopCount
    requires forall s :: 0 <= s < q.stopCount ==> f.best[s] == f.row[s] && f.stamp[s] < f.clock
    requires forall s :: 0 <= s < q.stopCount ==> f.row[s] == if s in q.origins then q.departure else U32_MAX
    requires forall s :: s in f.marked ==> s < q.stopCount
    requires forall s :: 0 <= s < q.stopCount ==> (f.flags[s] <==> s in f.marked) && (f.flags[s] <==> s in q.origins)
    ensures RoundInvariant(q, BeforeAll(q), f) && RidesOnly(f)
  {
  }
}
