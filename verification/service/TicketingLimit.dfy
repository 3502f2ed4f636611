/** `TicketingService::limit` without a database: a queue of recent moments per user and bucket. */
module TicketingLimit {
  import opened Clock

  /** A user together with a bucket of operations. */
  type Account = (int, int)

  type Queues = map<Account, seq<Moment>>

  function Recent(queue: seq<Moment>, now: Moment): (r: seq<Moment>) {
    if |queue| > 0 && Elapsed(now, queue[0]) > MINUTE then Recent(queue[1..], now) else queue
  }

  function QueueOf(queues: Queues, account: Account): seq<Moment> {
    if account in queues then queues[account] else []
  }

  function Decide(queues: Queues, call: Call<Account>): (Queues, bool) {
    var queue := Recent(QueueOf(queues, call.who), call.now);
    if |queue| >= call.limit then (queues[call.who := queue], false)
    else (queues[call.who := queue + [call.now]], true)
  }

  class Limiter {
    var rate: Queues

    constructor ()
      ensures rate == map[]
    {
      rate := map[];
    }

    method Limit(account: Account, max: nat, now: Moment) returns (admitted: bool)
      modifies this
      ensures (rate, admitted) == Decide(old(rate), Call(account, max, now))
    {
      ghost var before := rate;
      if account !in rate {
        rate := rate[account := []];
      }
      while |rate[account]| > 0 && Elapsed(now, rate[account][0]) > MINUTE
        invariant account in rate && rate == before[account := rate[account]]
        invariant Recent(rate[account], now) == Recent(QueueOf(before, account), now)
        decreases |rate[account]|
      {
        rate := rate[account := rate[account][1..]];
      }
      if |rate[account]| >= max {
        return false;
      }
      rate := rate[account := rate[account] + [now]];
      assert rate == before[account := rate[account]];
      return true;
    }
  }

  // ---------------------------------------------------------------- whole runs

  function QueuesAfter(calls: seq<Call<Account>>): Queues {
    if |calls| == 0 then map[] else Decide(QueuesAfter(calls[..|calls| - 1]), calls[|calls| - 1]).0
  }

  predicate Admits(calls: seq<Call<Account>>, call: Call<Account>) {
    Decide(QueuesAfter(calls), call).1
  }

  /** When the account's calls were admitted. */
  function Admissions(calls: seq<Call<Account>>, account: Account): seq<Moment> {
    if |calls| == 0 then []
    else
      var front, last := calls[..|calls| - 1], calls[|calls| - 1];
      Admissions(front, account) + if last.who == account && Admits(front, last) then [last.now] else []
  }

  // ---------------------------------------------------------------- what the queue loses

  /** The part of the log that is no longer in the queue. */
  function Lost(queue: seq<Moment>, log: seq<Moment>): seq<Moment> {
    if |queue| <= |log| then log[..|log| - |queue|] else []
  }

  /** The queue is the tail of the account's admissions, and what it has lost is more than a minute old. */
  ghost predicate Remembers(queue: seq<Moment>, log: seq<Moment>, peak: Moment) {
    && log == Lost(queue, log) + queue
    && forall t :: t in Lost(queue, log) ==> t + MINUTE < peak
  }

  lemma LostGrows(queue: seq<Moment>, log: seq<Moment>)
    requires log == Lost(queue, log) + queue && |queue| > 0
    ensures Lost(queue[1..], log) == Lost(queue, log) + [queue[0]]
  {
  }

  lemma {:induction false} RecentRemembers(queue: seq<Moment>, log: seq<Moment>, now: Moment, peak: Moment)
    requires Remembers(queue, log, peak) && now <= peak
    ensures Remembers(Recent(queue, now), log, peak)
  {
    if |queue| > 0 && Elapsed(now, queue[0]) > MINUTE {
      LostGrows(queue, log);
      RecentRemembers(queue[1..], log, now, peak);
    }
  }

  lemma AddedRemembers(queue: seq<Moment>, log: seq<Moment>, now: Moment, peak: Moment)
    requires Remembers(queue, log, peak)
    ensures Remembers(queue + [now], log + [now], peak)
  {
    LostSame(queue, log, now);
    hide Lost;
    assert log + [now] == Lost(queue, log) + (queue + [now]);
  }

  lemma LostSame(queue: seq<Moment>, log: seq<Moment>, now: Moment)
    requires |queue| <= |log|
    ensures Lost(queue + [now], log + [now]) == Lost(queue, log)
  {
  }

  /** Whatever the order of the times. */
  lemma {:induction false} AlwaysRemembers(calls: seq<Call<Account>>, account: Account)
    ensures Remembers(QueueOf(QueuesAfter(calls), account), Admissions(calls, account), Peak(Times(calls)))
  {
    if |calls| > 0 {
      var front, last := calls[..|calls| - 1], calls[|calls| - 1];
      AlwaysRemembers(front, account);
      PeakGrows(Times(front), last.now);
      var peak := Peak(Times(calls));
      var queue, log := QueueOf(QueuesAfter(front), account), Admissions(front, account);
      assert log + [] == log;
      LaterRemembers(queue, log, Peak(Times(front)), peak);
      hide Remembers, Recent, Peak;
      if last.who == account {
        RecentRemembers(queue, log, last.now, peak);
        AddedRemembers(Recent(queue, last.now), log, last.now, peak);
      }
    }
  }

  lemma LaterRemembers(queue: seq<Moment>, log: seq<Moment>, peak: Moment, later: Moment)
    requires Remembers(queue, log, peak) && peak <= later
    ensures Remembers(queue, log, later)
  {
  }

  // ---------------------------------------------------------------- the bound, and what disorder costs

  /** What the queue holds before a call counts every admission that matters to an interval around the call. */
  lemma QueueCounts(queue: seq<Moment>, log: seq<Moment>, peak: Moment, now: Moment, jitter: nat, from: Moment)
    requires Remembers(queue, log, peak) && peak <= now + jitter && jitter <= MINUTE
    requires from <= now <= from + (MINUTE - jitter)
    ensures Between(log, from, from + (MINUTE - jitter) + 1) <= |queue|
  {
    var until := from + (MINUTE - jitter) + 1;
    BetweenConcat(Lost(queue, log), queue, from, until);
    BetweenNone(Lost(queue, log), from, until);
    BetweenAtMost(queue, from, until);
  }

  /** When times come in order but for jumps back of at most `jitter`, at most the maximum is admitted in any interval
      that is shorter than a minute by as much. */
  lemma {:induction false} NeverMoreThanMaxJittered(calls: seq<Call<Account>>, account: Account, max: nat, jitter: nat,
                                                    from: Moment)
    requires Jittered(Times(calls), jitter) && jitter <= MINUTE && LimitedTo(calls, account, max)
    ensures Between(Admissions(calls, account), from, from + (MINUTE - jitter) + 1) <= max
  {
    if |calls| > 0 {
      var front, last := calls[..|calls| - 1], calls[|calls| - 1];
      assert calls == front + [last] && last in calls;
      NextTime(Times(front), last.now, jitter);
      NeverMoreThanMaxJittered(front, account, max, jitter, from);
      var log := Admissions(front, account);
      assert log + [] == log;
      if last.who == account && Admits(front, last) {
        BetweenAppend(log, last.now, from, from + (MINUTE - jitter) + 1);
        if from <= last.now <= from + (MINUTE - jitter) {
          QueueBeforeCall(front, last, jitter, from);
        }
      }
    }
  }

  lemma QueueBeforeCall(calls: seq<Call<Account>>, call: Call<Account>, jitter: nat, from: Moment)
    requires Jittered(Times(calls) + [call.now], jitter) && jitter <= MINUTE
    requires from <= call.now <= from + (MINUTE - jitter) && Admits(calls, call)
    ensures Between(Admissions(calls, call.who), from, from + (MINUTE - jitter) + 1) < call.limit
  {
    AlwaysRemembers(calls, call.who);
    NextTime(Times(calls), call.now, jitter);
    var queue, log := QueueOf(QueuesAfter(calls), call.who), Admissions(calls, call.who);
    var peak := Peak(Times(calls) + [call.now]);
    LaterRemembers(queue, log, Peak(Times(calls)), peak);
    RecentRemembers(queue, log, call.now, peak);
    hide Remembers, Recent, Peak, Admissions;
    QueueCounts(Recent(queue, call.now), log, peak, call.now, jitter, from);
  }

  /** In order, at most the maximum is admitted in any minute, both ends included, over any run. */
  lemma NeverMoreThanMax(calls: seq<Call<Account>>, account: Account, max: nat, from: Moment)
    requires InOrder(calls) && LimitedTo(calls, account, max)
    ensures InMinute(Admissions(calls, account), from) <= max
  {
    NeverMoreThanMaxJittered(calls, account, max, 0, from);
  }

  // ---------------------------------------------------------------- the verdict, when times are in order

  ghost predicate Ascending(log: seq<Moment>) {
    forall i, j :: 0 <= i < j < |log| ==> log[i] <= log[j]
  }

  lemma {:induction false} AdmissionsAscend(calls: seq<Call<Account>>, account: Account)
    requires InOrder(calls)
    ensures Ascending(Admissions(calls, account))
    ensures forall t :: t in Admissions(calls, account) ==> t <= Peak(Times(calls))
  {
    if |calls| > 0 {
      var front, last := calls[..|calls| - 1], calls[|calls| - 1];
      NextTime(Times(front), last.now, 0);
      AdmissionsAscend(front, account);
      var log := Admissions(front, account);
      assert log + [] == log && forall i :: 0 <= i < |log| ==> log[i] in log;
    }
  }

  /** What is left of an ascending queue is no more than a minute old. */
  lemma {:induction false} RecentIsRecent(queue: seq<Moment>, now: Moment)
    requires Ascending(queue)
    ensures forall t :: t in Recent(queue, now) ==> t + MINUTE >= now
  {
    if |queue| > 0 && Elapsed(now, queue[0]) > MINUTE {
      RecentIsRecent(queue[1..], now);
    }
  }

  lemma {:induction false} BetweenAll(log: seq<Moment>, from: Moment, until: Moment)
    requires forall i :: 0 <= i < |log| ==> from <= log[i] < until
    ensures Between(log, from, until) == |log|
  {
    if |log| > 0 {
      BetweenAll(log[..|log| - 1], from, until);
    }
  }

  /** How many admissions lie in the minute that ends at `now`. */
  function PastMinute(log: seq<Moment>, now: Moment): nat {
    Between(log, if now < MINUTE then 0 else now - MINUTE, now + 1)
  }

  /** The pruned queue counts the past minute. */
  lemma RecentCounts(queue: seq<Moment>, log: seq<Moment>, now: Moment)
    requires Remembers(queue, log, now) && (forall t :: t in log ==> t <= now)
    requires forall t :: t in queue ==> t + MINUTE >= now
    ensures |queue| == PastMinute(log, now)
  {
    var from := if now < MINUTE then 0 else now - MINUTE;
    var lost := Lost(queue, log);
    hide Lost;
    forall i | 0 <= i < |queue|
      ensures from <= queue[i] < now + 1
    {
      assert queue[i] in queue && queue[i] in log;
    }
    BetweenAll(queue, from, now + 1);
    BetweenNone(lost, from, now + 1);
    BetweenConcat(lost, queue, from, now + 1);
  }

  /** A call is admitted exactly when fewer than its maximum were admitted in the minute before it: the queue loses
      nothing that matters. */
  lemma SlidingWindowExact(calls: seq<Call<Account>>, call: Call<Account>)
    requires InOrder(calls + [call])
    ensures Admits(calls, call) <==> PastMinute(Admissions(calls, call.who), call.now) < call.limit
  {
    assert (calls + [call])[..|calls|] == calls;
    NextTime(Times(calls), call.now, 0);
    AlwaysRemembers(calls, call.who);
    AdmissionsAscend(calls, call.who);
    var queue, log := QueueOf(QueuesAfter(calls), call.who), Admissions(calls, call.who);
    assert Admits(calls, call) <==> |Recent(queue, call.now)| < call.limit;
    hide PastMinute, Admissions, Recent, QueueOf, Peak;
    LaterRemembers(queue, log, Peak(Times(calls)), call.now);
    QueueAscends(queue, log, call.now);
    RecentRemembers(queue, log, call.now, call.now);
    RecentIsRecent(queue, call.now);
    RecentCounts(Recent(queue, call.now), log, call.now);
  }

  lemma QueueAscends(queue: seq<Moment>, log: seq<Moment>, peak: Moment)
    requires Remembers(queue, log, peak) && Ascending(log)
    ensures Ascending(queue)
  {
    var n := |log| - |queue|;
    assert forall i :: 0 <= i < |queue| ==> queue[i] == log[n..][i];
    forall i, j | 0 <= i < j < |queue|
      ensures queue[i] <= queue[j]
    {
      assert queue[i] == log[n + i] && queue[j] == log[n + j];
    }
  }

  lemma OneMore(calls: seq<Call<Account>>, call: Call<Account>, queue: seq<Moment>, log: seq<Moment>)
    requires QueueOf(QueuesAfter(calls), call.who) == queue && Admissions(calls, call.who) == log
    requires |Recent(queue, call.now)| < call.limit
    ensures QueueOf(QueuesAfter(calls + [call]), call.who) == Recent(queue, call.now) + [call.now]
    ensures Admissions(calls + [call], call.who) == log + [call.now]
  {
    assert (calls + [call])[..|calls|] == calls;
  }

  lemma BothExpired(now: Moment)
    requires now > MINUTE
    ensures Recent([0, 0], now) == []
  {
    assert [0, 0][1..] == [0] && [0][1..] == [];
    assert Recent([0], now) == [];
  }

  /** The whole minute needs the order: a moment taken before another but queued after it slips past the bound. */
  lemma OutOfOrderExceeds()
    ensures var a := (0, 0);
            var calls := [] + [Call(a, 2, 0)] + [Call(a, 2, 0)] + [Call(a, 2, MINUTE + 1)] + [Call(a, 2, MINUTE)];
            InMinute(Admissions(calls, a), 0) == 3
  {
    var first := Call((0, 0), 2, 0);
    var second, third := first.(now := MINUTE + 1), first.(now := MINUTE);
    hide QueuesAfter, Admissions, Decide, Recent, QueueOf, Between;
    BothExpired(MINUTE + 1);
    EmptyRun(first.who, 0);
    OneMore([], first, [], []);
    assert [] + [0] == [0];
    OneMore([] + [first], first, [0], [0]);
    assert [0] + [0] == [0, 0];
    OneMore([] + [first] + [first], second, [0, 0], [0, 0]);
    EmptyRun(first.who, MINUTE);
    assert [] + [MINUTE + 1] == [MINUTE + 1];
    OneMore([] + [first] + [first] + [second], third, [MINUTE + 1], [0, 0] + [MINUTE + 1]);
    ThreeInMinute();
  }

  lemma ThreeInMinute()
    ensures InMinute([0, 0] + [MINUTE + 1] + [MINUTE], 0) == 3
  {
    hide Between;
    BetweenAppend([0, 0] + [MINUTE + 1], MINUTE, 0, MINUTE + 1);
    BetweenAppend([0, 0], MINUTE + 1, 0, MINUTE + 1);
    BetweenAll([0, 0], 0, MINUTE + 1);
  }

  lemma EmptyRun(account: Account, now: Moment)
    ensures QueueOf(QueuesAfter([]), account) == [] && Admissions([], account) == []
    ensures Recent([], now) == [] && Recent([0], 0) == [0]
    ensures now <= MINUTE ==> Recent([MINUTE + 1], now) == [MINUTE + 1]
  {
  }
}
