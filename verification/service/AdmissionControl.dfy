/** `Security::allow`: a fixed-window counter per client and endpoint group, in a table of bounded size. */
module AdmissionControl {
  import opened Machine
  import opened Clock

  const MAX_CLIENTS: nat := 10_000

  /** An address together with an endpoint group. */
  type Client = (int, int)

  datatype Window = Window(started: Moment, count: nat)

  type Table = map<Client, Window>

  datatype Reply = Admitted | Refused(retrySeconds: nat)

  function Live(table: Table, now: Moment): (kept: Table) {
    map c | c in table && Elapsed(now, table[c].started) < MINUTE :: table[c]
  }

  /** The table once the expired windows are dropped, which happens only when it is full. */
  function Trimmed(table: Table, now: Moment): Table {
    if |table| >= MAX_CLIENTS then Live(table, now) else table
  }

  predicate Crowded(table: Table, call: Call<Client>) {
    |Trimmed(table, call.now)| >= MAX_CLIENTS && call.who !in Trimmed(table, call.now)
  }

  /** The window a call counts in: the running one, or a new one. */
  function WindowFor(table: Table, call: Call<Client>): Window {
    if call.who in table && Elapsed(call.now, table[call.who].started) < MINUTE then table[call.who]
    else Window(call.now, 0)
  }

  function RetryAfter(window: Window, now: Moment): nat {
    Max(60 - Elapsed(now, window.started) / SECOND, 1)
  }

  function Decide(table: Table, call: Call<Client>): (Table, Reply) {
    if Crowded(table, call) then (Trimmed(table, call.now), Refused(60))
    else
      var trimmed := Trimmed(table, call.now);
      var window := WindowFor(trimmed, call);
      if window.count >= call.limit
      then (trimmed[call.who := window], Refused(RetryAfter(window, call.now)))
      else (trimmed[call.who := window.(count := window.count + 1)], Admitted)
  }

  class Security {
    var clients: Table

    constructor ()
      ensures clients == map[]
    {
      clients := map[];
    }

    /** `allow`, statement by statement. */
    method Allow(client: Client, limit: nat, now: Moment) returns (reply: Reply)
      modifies this
      ensures (clients, reply) == Decide(old(clients), Call(client, limit, now))
    {
      if |clients| >= MAX_CLIENTS {
        clients := map c | c in clients && Elapsed(now, clients[c].started) < MINUTE :: clients[c];
        if |clients| >= MAX_CLIENTS && client !in clients {
          return Refused(60);
        }
      }
      ghost var trimmed := clients;
      if client !in clients {
        clients := clients[client := Window(now, 0)];
      }
      if Elapsed(now, clients[client].started) >= MINUTE {
        clients := clients[client := Window(now, 0)];
      }
      assert clients == trimmed[client := WindowFor(trimmed, Call(client, limit, now))];
      if clients[client].count >= limit {
        return Refused(Max(60 - Elapsed(now, clients[client].started) / SECOND, 1));
      }
      clients := clients[client := clients[client].(count := clients[client].count + 1)];
      assert clients == trimmed[client := clients[client]];
      return Admitted;
    }
  }

  // ---------------------------------------------------------------- whole runs

  function TableAfter(calls: seq<Call<Client>>): Table {
    if |calls| == 0 then map[] else Decide(TableAfter(calls[..|calls| - 1]), calls[|calls| - 1]).0
  }

  /** When the client's calls were admitted. */
  function Admissions(calls: seq<Call<Client>>, client: Client): seq<Moment> {
    if |calls| == 0 then []
    else
      var front, last := calls[..|calls| - 1], calls[|calls| - 1];
      Admissions(front, client)
      + if last.who == client && Decide(TableAfter(front), last).1 == Admitted then [last.now] else []
  }

  // ---------------------------------------------------------------- the table stays bounded

  lemma {:induction false} TableBounded(calls: seq<Call<Client>>)
    ensures |TableAfter(calls)| <= MAX_CLIENTS
  {
    if |calls| > 0 {
      var front, last := calls[..|calls| - 1], calls[|calls| - 1];
      TableBounded(front);
      hide Live;
      LiveSmaller(TableAfter(front), last.now);
      var trimmed := Trimmed(TableAfter(front), last.now);
      assert Crowded(TableAfter(front), last) || TableAfter(calls).Keys == trimmed.Keys + {last.who};
    }
  }

  lemma LiveSmaller(table: Table, now: Moment)
    ensures |Live(table, now)| <= |table|
    ensures (exists c :: c in table && c !in Live(table, now)) ==> |Live(table, now)| < |table|
  {
    var live := Live(table, now);
    assert live.Keys <= table.Keys;
    SubsetSize(live.Keys, table.Keys);
  }

  // ---------------------------------------------------------------- no more than twice the limit a minute

  /** The client's admissions by window: those of its current window, those of the window before, and all earlier ones. */
  datatype Windows = Windows(older: seq<Moment>, previous: seq<Moment>, current: seq<Moment>) {
    function Log(): seq<Moment> {
      older + previous + current
    }
  }

  /** What the table says about the client's admissions when times jump back by at most `jitter`: windows hold no more
      than the limit, and two windows ago is out of reach of any call still to come. */
  ghost predicate Accounted(window: Option<Window>, w: Windows, peak: Moment, limit: nat, jitter: nat) {
    && |w.previous| <= limit
    && (forall t :: t in w.older ==> Gone(t, peak, jitter))
    && match window
       case None => w.current == [] && forall t :: t in w.previous ==> t < peak
       case Some(open) =>
         && open.started <= peak && |w.current| == open.count <= limit
         && (forall t :: t in w.current ==> t < open.started + MINUTE)
         && (forall t :: t in w.previous ==> t < open.started + jitter)
  }

  /** So long ago that an interval around a later call does not reach it. */
  predicate Gone(t: Moment, peak: Moment, jitter: nat) {
    t + MINUTE < peak + jitter
  }

  function Entry(table: Table, client: Client): Option<Window> {
    if client in table then Some(table[client]) else None
  }

  lemma Waits(window: Option<Window>, w: Windows, peak: Moment, later: Moment, limit: nat, jitter: nat)
    requires Accounted(window, w, peak, limit, jitter) && peak <= later
    ensures Accounted(window, w, later, limit, jitter)
  {
  }

  /** An expired window is dropped. */
  lemma Drops(open: Window, w: Windows, now: Moment, peak: Moment, limit: nat, jitter: nat) returns (after: Windows)
    requires Accounted(Some(open), w, peak, limit, jitter) && Elapsed(now, open.started) >= MINUTE && now <= peak
    ensures Accounted(None, after, peak, limit, jitter) && after.Log() == w.Log()
  {
    after := Windows(w.older + w.previous, w.current, []);
  }

  /** A new window opens. */
  lemma Opens(w: Windows, now: Moment, peak: Moment, limit: nat, jitter: nat)
    requires Accounted(None, w, peak, limit, jitter) && now <= peak <= now + jitter
    ensures Accounted(Some(Window(now, 0)), w, peak, limit, jitter)
  {
  }

  /** A call is counted. */
  lemma Counts(open: Window, w: Windows, now: Moment, peak: Moment, limit: nat, jitter: nat)
    requires Accounted(Some(open), w, peak, limit, jitter) && Elapsed(now, open.started) < MINUTE && open.count < limit
    ensures var after := w.(current := w.current + [now]);
            Accounted(Some(open.(count := open.count + 1)), after, peak, limit, jitter) && after.Log() == w.Log() + [now]
  {
    assert w.older + w.previous + (w.current + [now]) == w.older + w.previous + w.current + [now];
  }

  /** An interval around a call, a minute long but for twice the jitter, reaches back no further than two windows. */
  lemma TwoWindows(open: Window, w: Windows, now: Moment, peak: Moment, limit: nat, jitter: nat, from: Moment)
    requires Accounted(Some(open), w, peak, limit, jitter) && peak <= now + jitter && 2 * jitter <= MINUTE
    requires from <= now <= from + (MINUTE - 2 * jitter)
    ensures Between(w.Log(), from, from + (MINUTE - 2 * jitter) + 1) <= 2 * limit
  {
    var until := from + (MINUTE - 2 * jitter) + 1;
    BetweenConcat(w.older + w.previous, w.current, from, until);
    BetweenConcat(w.older, w.previous, from, until);
    assert forall t :: t in w.older ==> Gone(t, peak, jitter);
    BetweenNone(w.older, from, until);
    BetweenAtMost(w.previous, from, until);
    BetweenAtMost(w.current, from, until);
  }

  /** What one call does to the account of a client. */
  lemma CallAccounted(table: Table, call: Call<Client>, client: Client, w: Windows, peak: Moment, limit: nat, jitter: nat)
      returns (after: Windows)
    requires Accounted(Entry(table, client), w, peak, limit, jitter) && call.now <= peak <= call.now + jitter
    requires call.who == client ==> call.limit == limit
    ensures var (later, reply) := Decide(table, call);
            && Accounted(Entry(later, client), after, peak, limit, jitter)
            && after.Log() == w.Log() + (if call.who == client && reply == Admitted then [call.now] else [])
            && (call.who == client && reply == Admitted ==> Entry(later, client).Some?)
  {
    var trimmed := Trimmed(table, call.now);
    var window := Entry(trimmed, client);
    after := w;
    if client in table && client !in trimmed {
      after := Drops(table[client], w, call.now, peak, limit, jitter);
    }
    assert w.Log() + [] == w.Log();
    if call.who == client && !Crowded(table, call) {
      var open := WindowFor(trimmed, call);
      if window != Some(open) {
        if window.Some? {
          after := Drops(window.value, after, call.now, peak, limit, jitter);
        }
        Opens(after, call.now, peak, limit, jitter);
      }
      if open.count < limit {
        Counts(open, after, call.now, peak, limit, jitter);
        after := after.(current := after.current + [call.now]);
      }
    }
  }

  lemma {:induction false} AlwaysAccounted(calls: seq<Call<Client>>, client: Client, limit: nat, jitter: nat) returns (w: Windows)
    requires Jittered(Times(calls), jitter) && LimitedTo(calls, client, limit)
    ensures Accounted(Entry(TableAfter(calls), client), w, Peak(Times(calls)), limit, jitter)
    ensures w.Log() == Admissions(calls, client)
  {
    if |calls| == 0 {
      w := Windows([], [], []);
    } else {
      var front, last := calls[..|calls| - 1], calls[|calls| - 1];
      NextTime(Times(front), last.now, jitter);
      assert last in calls;
      w := AlwaysAccounted(front, client, limit, jitter);
      hide Accounted, Decide, Peak;
      var peak := Peak(Times(calls));
      Waits(Entry(TableAfter(front), client), w, Peak(Times(front)), peak, limit, jitter);
      w := CallAccounted(TableAfter(front), last, client, w, peak, limit, jitter);
    }
  }

  /** Over any run, however the table was trimmed meanwhile, and when times jump back by at most `jitter`: in any
      interval that is shorter than a minute by twice as much, a client is admitted at most twice its limit. */
  lemma {:induction false} TwiceTheLimitJittered(calls: seq<Call<Client>>, client: Client, limit: nat, jitter: nat, from: Moment)
    requires Jittered(Times(calls), jitter) && 2 * jitter <= MINUTE && LimitedTo(calls, client, limit)
    ensures Between(Admissions(calls, client), from, from + (MINUTE - 2 * jitter) + 1) <= 2 * limit
  {
    if |calls| > 0 {
      var front, last := calls[..|calls| - 1], calls[|calls| - 1];
      NextTime(Times(front), last.now, jitter);
      TwiceTheLimitJittered(front, client, limit, jitter, from);
      var log := Admissions(front, client);
      assert log + [] == log;
      if last.who == client && Decide(TableAfter(front), last).1 == Admitted {
        BetweenAppend(log, last.now, from, from + (MINUTE - 2 * jitter) + 1);
        if from <= last.now <= from + (MINUTE - 2 * jitter) {
          var w := AlwaysAccounted(calls, client, limit, jitter);
          TwoWindows(TableAfter(calls)[client], w, last.now, Peak(Times(calls)), limit, jitter, from);
        }
      }
    }
  }

  /** In order, a client is admitted at most twice its limit in any minute, both ends included. */
  lemma TwiceTheLimit(calls: seq<Call<Client>>, client: Client, limit: nat, from: Moment)
    requires InOrder(calls) && LimitedTo(calls, client, limit)
    ensures InMinute(Admissions(calls, client), from) <= 2 * limit
  {
    TwiceTheLimitJittered(calls, client, limit, 0, from);
  }

  // ---------------------------------------------------------------- the verdict, when times are in order

  /** The client's window counts its admissions since it was opened; those before lie behind, and so do all of a client
      without a window. */
  ghost predicate Tracked(window: Option<Window>, log: seq<Moment>, peak: Moment) {
    match window
    case None => forall t :: t in log ==> t < peak
    case Some(open) =>
      && open.started <= peak && open.count == Between(log, open.started, peak + 1)
      && forall t :: t in log ==> t <= peak && t < open.started + MINUTE
  }

  lemma TrackedWaits(window: Option<Window>, log: seq<Moment>, peak: Moment, now: Moment)
    requires Tracked(window, log, peak) && peak <= now
    ensures Tracked(window, log, now)
    ensures window.Some? && now >= window.value.started + MINUTE ==> Tracked(None, log, now)
  {
    if window.Some? {
      BetweenSame(log, window.value.started, peak + 1, now + 1);
    }
  }

  /** No moment lies between the two ends. */
  lemma {:induction false} BetweenSame(log: seq<Moment>, from: Moment, until: Moment, later: Moment)
    requires until <= later && forall t :: t in log ==> t < until
    ensures Between(log, from, until) == Between(log, from, later)
  {
    if |log| > 0 {
      var front := log[..|log| - 1];
      assert log == front + [log[|log| - 1]] && log[|log| - 1] in log;
      assert forall t :: t in front ==> t in log;
      BetweenSame(front, from, until, later);
    }
  }

  lemma TrackedOpens(log: seq<Moment>, now: Moment)
    requires Tracked(None, log, now)
    ensures Tracked(Some(Window(now, 0)), log, now)
  {
    BetweenNone(log, now, now + 1);
  }

  lemma TrackedCounts(open: Window, log: seq<Moment>, now: Moment)
    requires Tracked(Some(open), log, now) && now < open.started + MINUTE
    ensures Tracked(Some(open.(count := open.count + 1)), log + [now], now)
  {
    BetweenAppend(log, now, open.started, now + 1);
  }

  /** The window that a call of the client counts in is tracked. */
  lemma WindowTracked(table: Table, call: Call<Client>, log: seq<Moment>)
    requires Tracked(Entry(table, call.who), log, call.now)
    ensures Tracked(Some(WindowFor(Trimmed(table, call.now), call)), log, call.now)
    ensures call.now < WindowFor(Trimmed(table, call.now), call).started + MINUTE
  {
    TrackedWaits(Entry(table, call.who), log, call.now, call.now);
    if Tracked(None, log, call.now) {
      TrackedOpens(log, call.now);
    }
  }

  lemma CallTracked(table: Table, call: Call<Client>, client: Client, log: seq<Moment>)
    requires Tracked(Entry(table, client), log, call.now)
    ensures var (later, reply) := Decide(table, call);
            Tracked(Entry(later, client), log + (if call.who == client && reply == Admitted then [call.now] else []), call.now)
  {
    TrackedWaits(Entry(table, client), log, call.now, call.now);
    assert log + [] == log;
    if call.who == client && !Crowded(table, call) {
      WindowTracked(table, call, log);
      var open := WindowFor(Trimmed(table, call.now), call);
      if open.count < call.limit {
        TrackedCounts(open, log, call.now);
      }
    }
  }

  lemma {:induction false} AlwaysTracked(calls: seq<Call<Client>>, client: Client)
    requires InOrder(calls)
    ensures Tracked(Entry(TableAfter(calls), client), Admissions(calls, client), Peak(Times(calls)))
  {
    if |calls| > 0 {
      var front, last := calls[..|calls| - 1], calls[|calls| - 1];
      NextTime(Times(front), last.now, 0);
      AlwaysTracked(front, client);
      hide Tracked, Decide, Peak;
      TrackedWaits(Entry(TableAfter(front), client), Admissions(front, client), Peak(Times(front)), last.now);
      CallTracked(TableAfter(front), last, client, Admissions(front, client));
    }
  }

  /** Ten thousand other clients have called within the last minute. */
  predicate FullOfOthers(table: Table, client: Client, now: Moment) {
    |table| == 10_000 && client !in table && forall c :: c in table ==> now < table[c].started + MINUTE
  }

  /** When the window was opened that a call of the client falls into. */
  function OpenedAt(table: Table, client: Client, now: Moment): Moment {
    if client in table && now < table[client].started + MINUTE then table[client].started else now
  }

  lemma CrowdedMeansFull(calls: seq<Call<Client>>, call: Call<Client>)
    ensures Crowded(TableAfter(calls), call) <==> FullOfOthers(TableAfter(calls), call.who, call.now)
  {
    var table := TableAfter(calls);
    TableBounded(calls);
    LiveSmaller(table, call.now);
    if FullOfOthers(table, call.who, call.now) {
      assert Live(table, call.now) == table;
    }
  }

  /** A call is admitted exactly if the table is not full of others who called within a minute and the client was admitted
      fewer times than its limit since its window opened; a client without a running window opens one. */
  lemma AdmittedExactly(calls: seq<Call<Client>>, call: Call<Client>)
    requires InOrder(calls + [call])
    ensures var table := TableAfter(calls);
            Decide(table, call).1 == Admitted <==>
              !FullOfOthers(table, call.who, call.now)
              && Between(Admissions(calls, call.who), OpenedAt(table, call.who, call.now), call.now + 1) < call.limit
  {
    assert (calls + [call])[..|calls|] == calls;
    NextTime(Times(calls), call.now, 0);
    var table, log := TableAfter(calls), Admissions(calls, call.who);
    AlwaysTracked(calls, call.who);
    hide Tracked;
    TrackedWaits(Entry(table, call.who), log, Peak(Times(calls)), call.now);
    CrowdedMeansFull(calls, call);
    VerdictTracked(table, call, log);
  }

  lemma VerdictTracked(table: Table, call: Call<Client>, log: seq<Moment>)
    requires Tracked(Entry(table, call.who), log, call.now)
    ensures Decide(table, call).1 == Admitted <==>
              !Crowded(table, call) && Between(log, OpenedAt(table, call.who, call.now), call.now + 1) < call.limit
  {
    WindowTracked(table, call, log);
  }

  // ---------------------------------------------------------------- the retry hint

  /** No window starts in the future. */
  lemma {:induction false} StartedBy(calls: seq<Call<Client>>)
    requires InOrder(calls)
    ensures forall c :: c in TableAfter(calls) ==> TableAfter(calls)[c].started <= Peak(Times(calls))
  {
    if |calls| > 0 {
      var front, last := calls[..|calls| - 1], calls[|calls| - 1];
      NextTime(Times(front), last.now, 0);
      StartedBy(front);
      hide Peak;
    }
  }

  /** Seconds left of a window, rounded up. */
  lemma RetryAfterExact(started: Moment, count: nat, now: Moment, wait: nat)
    requires started <= now && now - started < MINUTE
    ensures now + wait * SECOND - started >= MINUTE <==> wait >= RetryAfter(Window(started, count), now)
  {
    var elapsed := now - started;
    var whole := elapsed / SECOND;
    assert whole * SECOND <= elapsed < whole * SECOND + SECOND;
    if wait >= 60 - whole {
      assert wait * SECOND >= (60 - whole) * SECOND;
    } else {
      assert wait * SECOND <= (59 - whole) * SECOND;
    }
  }

  /** When a client over its limit is refused, the hint is exactly the least number of whole seconds after which the same
      call is admitted, if nobody else calls meanwhile. */
  lemma RetryHintExact(calls: seq<Call<Client>>, call: Call<Client>, wait: nat)
    requires InOrder(calls + [call]) && call.limit > 0
    requires var (after, reply) := Decide(TableAfter(calls), call); reply.Refused? && !Crowded(TableAfter(calls), call)
    ensures var (after, reply) := Decide(TableAfter(calls), call);
            Decide(after, call.(now := call.now + wait * SECOND)).1 == Admitted <==> wait >= reply.retrySeconds
  {
    LaterCall(calls, call);
    var table := TableAfter(calls);
    var (after, reply) := Decide(table, call);
    var window := WindowFor(Trimmed(table, call.now), call);
    assert after[call.who] == window;
    var retry := call.(now := call.now + wait * SECOND);
    RetryAfterExact(window.started, window.count, call.now, wait);
    LiveSmaller(after, retry.now);
    TableBounded(calls + [call]);
    assert (calls + [call])[..|calls|] == calls;
    if wait >= reply.retrySeconds {
      assert call.who in after && call.who !in Live(after, retry.now);
      assert !Crowded(after, retry);
    } else {
      assert WindowFor(Trimmed(after, retry.now), retry) == window;
    }
  }

  lemma LaterCall(calls: seq<Call<Client>>, call: Call<Client>)
    requires InOrder(calls + [call])
    ensures InOrder(calls)
    ensures forall c :: c in TableAfter(calls) ==> TableAfter(calls)[c].started <= call.now
  {
    assert (calls + [call])[..|calls|] == calls;
    NextTime(Times(calls), call.now, 0);
    StartedBy(calls);
  }

  /** When the table is full, its hint suffices too. */
  lemma RetryHintWhenCrowded(calls: seq<Call<Client>>, call: Call<Client>, wait: nat)
    requires InOrder(calls + [call]) && call.limit > 0 && Crowded(TableAfter(calls), call)
    requires wait >= 60
    ensures Decide(Decide(TableAfter(calls), call).0, call.(now := call.now + wait * SECOND)).1 == Admitted
  {
    LaterCall(calls, call);
    var after := Decide(TableAfter(calls), call).0;
    var retry := call.(now := call.now + wait * SECOND);
    assert wait * SECOND >= MINUTE;
    assert Live(after, retry.now) == map[];
  }
}
