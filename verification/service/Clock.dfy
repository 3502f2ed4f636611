/** A monotonic clock in nanoseconds, and logs of moments on it. */
module Clock {
  type Moment = nat

  const SECOND: nat := 1_000_000_000
  const MINUTE: nat := 60_000_000_000

  /** `Instant::duration_since`: zero when the clock seems to have gone back. */
  function Elapsed(now: Moment, since: Moment): (d: nat) {
    if now < since then 0 else now - since
  }

  /** How many moments of the log lie in `[from, until)`. */
  function Between(log: seq<Moment>, from: Moment, until: Moment): nat {
    if |log| == 0 then 0
    else Between(log[..|log| - 1], from, until) + if from <= log[|log| - 1] < until then 1 else 0
  }

  /** How many lie in the minute that starts at `from`, both ends included. */
  function InMinute(log: seq<Moment>, from: Moment): nat {
    Between(log, from, from + MINUTE + 1)
  }

  lemma BetweenAppend(log: seq<Moment>, t: Moment, from: Moment, until: Moment)
    ensures Between(log + [t], from, until) == Between(log, from, until) + if from <= t < until then 1 else 0
  {
    assert (log + [t])[..|log|] == log;
  }

  lemma {:induction false} BetweenNone(log: seq<Moment>, from: Moment, until: Moment)
    requires forall t :: t in log ==> t < from || t >= until
    ensures Between(log, from, until) == 0
  {
    if |log| > 0 {
      var front := log[..|log| - 1];
      assert forall t :: t in front ==> t in log;
      assert log[|log| - 1] in log;
      BetweenNone(front, from, until);
    }
  }

  lemma {:induction false} BetweenConcat(a: seq<Moment>, b: seq<Moment>, from: Moment, until: Moment)
    ensures Between(a + b, from, until) == Between(a, from, until) + Between(b, from, until)
  {
    if |b| == 0 {
      assert a + b == a;
    } else {
      assert (a + b)[..|a + b| - 1] == a + b[..|b| - 1];
      BetweenConcat(a, b[..|b| - 1], from, until);
    }
  }

  lemma {:induction false} BetweenAtMost(log: seq<Moment>, from: Moment, until: Moment)
    ensures Between(log, from, until) <= |log|
  {
    if |log| > 0 {
      BetweenAtMost(log[..|log| - 1], from, until);
    }
  }

  /** A call of `who`, limited to `limit`, at `now`. */
  datatype Call<K> = Call(who: K, limit: nat, now: Moment)

  function Times<K>(calls: seq<Call<K>>): seq<Moment> {
    if |calls| == 0 then [] else Times(calls[..|calls| - 1]) + [calls[|calls| - 1].now]
  }

  ghost predicate InOrder<K>(calls: seq<Call<K>>) {
    Jittered(Times(calls), 0)
  }

  ghost predicate LimitedTo<K>(calls: seq<Call<K>>, who: K, limit: nat) {
    forall c :: c in calls && c.who == who ==> c.limit == limit
  }

  /** The times come in order, but for jumps back of at most `jitter`: each was read before some lock was waited for. */
  ghost predicate Jittered(times: seq<Moment>, jitter: nat) {
    forall i, j :: 0 <= i < j < |times| ==> times[i] <= times[j] + jitter
  }

  /** The latest of the times. */
  function Peak(times: seq<Moment>): Moment {
    if |times| == 0 then 0
    else
      var before := Peak(times[..|times| - 1]);
      if times[|times| - 1] < before then before else times[|times| - 1]
  }

  lemma {:induction false} PeakIsTime(times: seq<Moment>)
    ensures |times| > 0 ==> Peak(times) in times
  {
    if |times| > 0 {
      var front, last := times[..|times| - 1], times[|times| - 1];
      PeakIsTime(front);
      assert times == front + [last];
    }
  }

  /** A new time lags behind the latest one by no more than the jitter. */
  lemma NextTime(times: seq<Moment>, now: Moment, jitter: nat)
    requires Jittered(times + [now], jitter)
    ensures Jittered(times, jitter)
    ensures Peak(times) <= Peak(times + [now]) <= now + jitter && now <= Peak(times + [now])
  {
    var longer := times + [now];
    PeakGrows(times, now);
    assert longer[..|times|] == times;
    assert forall i :: 0 <= i < |times| ==> longer[i] == times[i];
    PeakIsTime(times);
    if |times| > 0 {
      var i :| 0 <= i < |times| && times[i] == Peak(times);
      assert longer[i] <= longer[|times|] + jitter;
    }
  }

  lemma PeakGrows(times: seq<Moment>, now: Moment)
    ensures Peak(times) <= Peak(times + [now]) && now <= Peak(times + [now])
  {
    assert (times + [now])[..|times|] == times;
  }
}
