/** The way of a telemetry event from `record` through the channel, the pending aggregates and a batch into the table,
    as steps of concurrent recorders, the persistence loop and the database. */
module Telemetry {
  import opened Machine
  import opened LatencyStats
  import opened TelemetryLedger

  const CHANNEL_CAPACITY: nat := 4096
  const MAX_PENDING_KEYS: nat := 8192

  type BatchId = int

  datatype Batch = Batch(id: BatchId, rows: map<Row, Totals>)

  /** `recording` holds the events between the two halves of `record`; `sent` every batch a transaction was ever opened
      for, since a transaction whose caller gave up may still commit; `awaiting` whether the loop waits for one. */
  datatype State = State(
    live: map<Key, Totals>,
    recording: seq<Event>,
    channel: seq<Event>,
    dropped: nat,
    pending: map<Row, Totals>,
    batch: Option<Batch>,
    awaiting: bool,
    sent: set<Batch>,
    table: map<Row, Totals>,
    committed: set<BatchId>)

  datatype Action =
    | Observe(event: Event)
    | Send(i: nat)
    | Receive
    | Tick(id: BatchId)
    | Commit(attempt: Batch)
    | Acknowledge
    | GiveUp

  const IDLE: State := State(map[], [], [], 0, map[], None, false, {}, map[], {})

  predicate Enabled(s: State, a: Action) {
    match a
    case Observe(e) => e.totals.observations == 1
    case Send(i) => i < |s.recording|
    case Receive => !s.awaiting && |s.channel| > 0
    case Tick(id) => !s.awaiting && forall b :: b in s.sent ==> b.id != id
    case Commit(b) => b in s.sent
    case Acknowledge => s.awaiting && s.batch.Some? && s.batch.value.id in s.committed
    case GiveUp => s.awaiting
  }

  predicate HasRoom(s: State, row: Row) {
    |s.pending| < MAX_PENDING_KEYS || row in s.pending
  }

  /** The batch the loop tries to persist at a tick: the one at hand, or all that is pending. */
  function BatchAt(s: State, id: BatchId): Option<Batch> {
    if s.batch.None? && |s.pending| > 0 then Some(Batch(id, s.pending)) else s.batch
  }

  function Take(s: State, a: Action): State
    requires Enabled(s, a)
  {
    match a
    case Observe(e) =>
      s.(live := MergeRow(s.live, e.key, e.totals), recording := s.recording + [e])
    case Send(i) =>
      var rest := s.(recording := s.recording[..i] + s.recording[i + 1..]);
      if |s.channel| >= CHANNEL_CAPACITY then rest.(dropped := s.dropped + 1)
      else rest.(channel := s.channel + [s.recording[i]])
    case Receive =>
      var e := s.channel[0];
      var rest := s.(channel := s.channel[1..]);
      if HasRoom(s, (e.minute, e.key)) then rest.(pending := MergeRow(s.pending, (e.minute, e.key), e.totals))
      else rest.(dropped := s.dropped + e.totals.observations)
    case Tick(id) =>
      var batch := BatchAt(s, id);
      if batch.None? then s
      else s.(pending := if s.batch.None? then map[] else s.pending, batch := batch, awaiting := true,
              sent := s.sent + {batch.value})
    case Commit(b) =>
      if b.id in s.committed then s
      else s.(committed := s.committed + {b.id}, table := MergeRows(s.table, b.rows))
    case Acknowledge => s.(batch := None, awaiting := false)
    case GiveUp => s.(awaiting := false)
  }

  lemma RowApplied(table: map<Row, Totals>, rows: map<Row, Totals>, todo: set<Row>, row: Row)
    requires row in todo && todo <= rows.Keys
    ensures MergeRow(MergeRows(table, rows - todo), row, rows[row]) == MergeRows(table, rows - (todo - {row}))
  {
    hide Add;
    MergeRowLast(table, rows - todo, row, rows[row]);
    AddZero(rows[row]);
    assert MergeRow(rows - todo, row, rows[row]) == rows - (todo - {row});
  }

  // ---------------------------------------------------------------- the program

  class Pipeline {
    var live: map<Key, Totals>
    var recording: seq<Event>
    var channel: seq<Event>
    var dropped: nat
    var pending: map<Row, Totals>
    var batch: Option<Batch>
    var awaiting: bool
    var sent: set<Batch>
    var table: map<Row, Totals>
    var committed: set<BatchId>

    ghost function Now(): State
      reads this
    {
      State(live, recording, channel, dropped, pending, batch, awaiting, sent, table, committed)
    }

    constructor ()
      ensures Now() == IDLE
    {
      live, recording, channel, dropped := map[], [], [], 0;
      pending, batch, awaiting, sent := map[], None, false, {};
      table, committed := map[], {};
    }

    /** `record`, first half: the live counters, under their lock. */
    method Observe(event: Event)
      requires Enabled(Now(), Action.Observe(event))
      modifies this
      ensures Now() == Take(old(Now()), Action.Observe(event))
    {
      live := live[event.key := Add(Get(live, event.key), event.totals)];
      recording := recording + [event];
    }

    /** `record`, second half: `try_send`. */
    method Send(i: nat)
      requires Enabled(Now(), Action.Send(i))
      modifies this
      ensures Now() == Take(old(Now()), Action.Send(i))
    {
      var event := recording[i];
      recording := recording[..i] + recording[i + 1..];
      if |channel| < CHANNEL_CAPACITY {
        channel := channel + [event];
      } else {
        dropped := dropped + 1;
      }
    }

    /** `persist_loop`, the branch of a received event. */
    method Receive()
      requires Enabled(Now(), Action.Receive)
      modifies this
      ensures Now() == Take(old(Now()), Action.Receive)
    {
      var event := channel[0];
      var row := (event.minute, event.key);
      channel := channel[1..];
      if |pending| < MAX_PENDING_KEYS || row in pending {
        pending := pending[row := Add(Get(pending, row), event.totals)];
      } else {
        dropped := dropped + event.totals.observations;
      }
    }

    /** `persist_loop`, the branch of the interval, up to the call of `persist_batch`. */
    method Tick(id: BatchId)
      requires Enabled(Now(), Action.Tick(id))
      modifies this
      ensures Now() == Take(old(Now()), Action.Tick(id))
    {
      if batch.None? && |pending| > 0 {
        batch := Some(Batch(id, pending));
        pending := map[];
      }
      if batch.Some? {
        sent := sent + {batch.value};
        awaiting := true;
      }
    }

    /** `persist_batch`: a transaction that commits, row by row, unless its batch is known. */
    method Commit(attempt: Batch)
      requires Enabled(Now(), Action.Commit(attempt))
      modifies this
      ensures Now() == Take(old(Now()), Action.Commit(attempt))
    {
      if attempt.id in committed {
        return;
      }
      committed := committed + {attempt.id};
      var todo := attempt.rows.Keys;
      MergeRowsEmpty(table);
      assert attempt.rows - todo == map[] && attempt.rows - {} == attempt.rows;
      hide MergeRows, Add;
      while todo != {}
        modifies this`table
        invariant todo <= attempt.rows.Keys && table == MergeRows(old(table), attempt.rows - todo)
        decreases todo
      {
        ghost var some := SomeElement(todo);
        var row :| row in todo;
        RowApplied(old(table), attempt.rows, todo, row);
        table := table[row := Add(Get(table, row), attempt.rows[row])];
        todo := todo - {row};
      }
    }

    /** The branch of the interval after `persist_batch` returned in time and without an error. */
    method Acknowledge()
      requires Enabled(Now(), Action.Acknowledge)
      modifies this
      ensures Now() == Take(old(Now()), Action.Acknowledge)
    {
      batch, awaiting := None, false;
    }

    /** The same after an error or a timeout, whatever became of the transaction. */
    method GiveUp()
      requires Enabled(Now(), Action.GiveUp)
      modifies this
      ensures Now() == Take(old(Now()), Action.GiveUp)
    {
      awaiting := false;
    }
  }

  // ---------------------------------------------------------------- where the events are

  /** The events recorded so far, and those that are pending, in a batch not yet in the table, in the table, or
      lost. */
  datatype Parts = Parts(recorded: seq<Event>, waiting: seq<Event>, held: seq<Event>, stored: seq<Event>,
                         lost: seq<Event>)

  function Track(s: State, p: Parts, a: Action): Parts
    requires Enabled(s, a)
  {
    match a
    case Observe(e) => p.(recorded := p.recorded + [e])
    case Send(i) => if |s.channel| >= CHANNEL_CAPACITY then p.(lost := p.lost + [s.recording[i]]) else p
    case Receive =>
      var e := s.channel[0];
      if HasRoom(s, (e.minute, e.key)) then p.(waiting := p.waiting + [e]) else p.(lost := p.lost + [e])
    case Tick(id) => if s.batch.None? && |s.pending| > 0 then p.(held := p.waiting, waiting := []) else p
    case Commit(b) => if b.id in s.committed then p else p.(stored := p.stored + p.held, held := [])
    case Acknowledge => p
    case GiveUp => p
  }

  /** The rows of a batch that is not yet in the table. */
  function Unapplied(s: State): map<Row, Totals> {
    if s.batch.Some? && s.batch.value.id !in s.committed then s.batch.value.rows else map[]
  }

  ghost function Elsewhere(recording: seq<Event>, channel: seq<Event>, p: Parts): multiset<Event> {
    multiset(recording) + multiset(channel) + multiset(p.waiting) + multiset(p.held) + multiset(p.stored)
    + multiset(p.lost)
  }

  /** Every recorded event is in exactly one place. */
  ghost predicate Placed(s: State, p: Parts) {
    && multiset(p.recorded) == Elsewhere(s.recording, s.channel, p)
    && Single(p.recorded)
  }

  /** Every aggregate is that of the events in its place. */
  ghost predicate Aggregated(s: State, p: Parts) {
    && s.live == LiveTally(p.recorded)
    && s.pending == Tally(p.waiting)
    && Unapplied(s) == Tally(p.held)
    && s.table == Tally(p.stored)
    && s.dropped == |p.lost|
  }

  /** Only batches a transaction was opened for are committed. */
  ghost predicate CommittedSent(s: State) {
    forall id :: id in s.committed ==> exists b :: b in s.sent && b.id == id
  }

  /** A transaction not yet committed can only be about the batch at hand. */
  ghost predicate Disciplined(s: State) {
    && (forall b :: b in s.sent && b.id !in s.committed ==> s.batch == Some(b))
    && (s.batch.Some? ==> s.batch.value in s.sent)
    && CommittedSent(s)
    && (s.awaiting ==> s.batch.Some?)
  }

  /** The memory the pipeline holds is bounded. */
  ghost predicate Bounded(s: State) {
    && |s.channel| <= CHANNEL_CAPACITY
    && |s.pending| <= MAX_PENDING_KEYS
    && (s.batch.Some? ==> 0 < |s.batch.value.rows| <= MAX_PENDING_KEYS)
  }

  lemma BoundedStep(s: State, a: Action)
    requires Enabled(s, a) && Bounded(s)
    ensures Bounded(Take(s, a))
  {
    hide Add, MergeRows;
    if a.Receive? {
      var row := (s.channel[0].minute, s.channel[0].key);
      var after := Take(s, a);
      assert HasRoom(s, row) ==> after.pending.Keys == s.pending.Keys + {row};
      assert row in s.pending ==> after.pending.Keys == s.pending.Keys;
      assert |after.pending| == |after.pending.Keys| && |s.pending| == |s.pending.Keys|;
    }
  }

  lemma DisciplinedStep(s: State, a: Action)
    requires Enabled(s, a) && Disciplined(s)
    ensures Disciplined(Take(s, a))
  {
    hide MergeRow, MergeRows;
    CommittedSentStep(s, a);
    hide CommittedSent;
  }

  lemma CommittedSentStep(s: State, a: Action)
    requires Enabled(s, a) && CommittedSent(s)
    ensures CommittedSent(Take(s, a))
  {
    hide MergeRow, MergeRows;
    var after := Take(s, a);
    assert s.sent <= after.sent;
    forall id | id in after.committed
      ensures exists b :: b in after.sent && b.id == id
    {
      if id in s.committed {
        var b :| b in s.sent && b.id == id;
        assert b in after.sent;
      } else {
        assert a.Commit? && a.attempt in after.sent && a.attempt.id == id;
      }
    }
  }

  lemma PlacedStep(s: State, p: Parts, a: Action)
    requires Enabled(s, a) && Placed(s, p) && Aggregated(s, p)
    ensures Placed(Take(s, a), Track(s, p, a))
  {
    match a
    case Observe(e) => PlacedObserve(s, p, e);
    case Send(i) => PlacedSend(s, p, i);
    case Receive => PlacedReceive(s, p);
    case Tick(id) => PlacedTick(s, p, id);
    case Commit(b) => PlacedCommit(s, p, b);
    case Acknowledge =>
    case GiveUp =>
  }

  lemma PlacedTick(s: State, p: Parts, id: BatchId)
    requires Enabled(s, Action.Tick(id)) && Placed(s, p) && Aggregated(s, p)
    ensures Placed(Take(s, Action.Tick(id)), Track(s, p, Action.Tick(id)))
  {
    hide Add, MergeRow, LiveTally, Single, Elsewhere;
    TallyEmpty(p.held);
    if s.batch.None? && |s.pending| > 0 {
      WaitingHeld(s.recording, s.channel, p);
    }
  }

  lemma WaitingHeld(recording: seq<Event>, channel: seq<Event>, p: Parts)
    requires p.held == []
    ensures Elsewhere(recording, channel, p.(held := p.waiting, waiting := [])) == Elsewhere(recording, channel, p)
  {
  }

  lemma TallyEmpty(events: seq<Event>)
    ensures Tally(events) == map[] ==> events == []
  {
    if |events| > 0 {
      var last := events[|events| - 1];
      assert (last.minute, last.key) in Tally(events);
    }
  }

  lemma PlacedCommit(s: State, p: Parts, b: Batch)
    requires Enabled(s, Action.Commit(b)) && Placed(s, p)
    ensures Placed(Take(s, Action.Commit(b)), Track(s, p, Action.Commit(b)))
  {
    hide MergeRows, Single;
  }

  lemma PlacedObserve(s: State, p: Parts, e: Event)
    requires Enabled(s, Action.Observe(e)) && Placed(s, p)
    ensures Placed(Take(s, Action.Observe(e)), Track(s, p, Action.Observe(e)))
  {
    hide Add, MergeRow;
  }

  lemma PlacedSend(s: State, p: Parts, i: nat)
    requires Enabled(s, Action.Send(i)) && Placed(s, p)
    ensures Placed(Take(s, Action.Send(i)), Track(s, p, Action.Send(i)))
  {
    hide Elsewhere, Single;
    AnyMoves(s.recording, i, s.channel, p);
  }

  lemma AnyMoves(recording: seq<Event>, i: nat, channel: seq<Event>, p: Parts)
    requires i < |recording|
    ensures var e, rest := recording[i], recording[..i] + recording[i + 1..];
            && Elsewhere(rest, channel + [e], p) == Elsewhere(recording, channel, p)
            && Elsewhere(rest, channel, p.(lost := p.lost + [e])) == Elsewhere(recording, channel, p)
  {
    assert recording == recording[..i] + [recording[i]] + recording[i + 1..];
  }

  lemma PlacedReceive(s: State, p: Parts)
    requires Enabled(s, Action.Receive) && Placed(s, p)
    ensures Placed(Take(s, Action.Receive), Track(s, p, Action.Receive))
  {
    hide Add, MergeRow, HasRoom, Single, Elsewhere;
    HeadMoves(s.recording, s.channel, p);
  }

  lemma HeadMoves(recording: seq<Event>, channel: seq<Event>, p: Parts)
    requires |channel| > 0
    ensures var e := channel[0];
            && Elsewhere(recording, channel[1..], p.(waiting := p.waiting + [e])) == Elsewhere(recording, channel, p)
            && Elsewhere(recording, channel[1..], p.(lost := p.lost + [e])) == Elsewhere(recording, channel, p)
  {
    assert channel == [channel[0]] + channel[1..];
  }

  lemma ChannelSingle(s: State, p: Parts)
    requires Placed(s, p) && |s.channel| > 0
    ensures s.channel[0].totals.observations == 1
  {
    assert s.channel[0] in multiset(s.channel);
    assert s.channel[0] in multiset(p.recorded);
  }

  lemma AggregatedStep(s: State, p: Parts, a: Action)
    requires Enabled(s, a) && Placed(s, p) && Aggregated(s, p) && Disciplined(s)
    ensures Aggregated(Take(s, a), Track(s, p, a))
  {
    match a
    case Observe(e) => AggregatedObserve(s, p, e);
    case Send(i) => AggregatedSend(s, p, i);
    case Receive => AggregatedReceive(s, p);
    case Tick(id) => AggregatedTick(s, p, id);
    case Commit(b) => AggregatedCommit(s, p, b);
    case Acknowledge =>
    case GiveUp =>
  }

  lemma AggregatedObserve(s: State, p: Parts, e: Event)
    requires Enabled(s, Action.Observe(e)) && Aggregated(s, p)
    ensures Aggregated(Take(s, Action.Observe(e)), Track(s, p, Action.Observe(e)))
  {
    hide Add, MergeRow, Tally;
    assert (p.recorded + [e])[..|p.recorded|] == p.recorded;
  }

  lemma AggregatedSend(s: State, p: Parts, i: nat)
    requires Enabled(s, Action.Send(i)) && Aggregated(s, p)
    ensures Aggregated(Take(s, Action.Send(i)), Track(s, p, Action.Send(i)))
  {
    hide Tally, LiveTally, Add, MergeRow, MergeRows, HasRoom, BatchAt;
  }

  lemma AggregatedReceive(s: State, p: Parts)
    requires Enabled(s, Action.Receive) && Placed(s, p) && Aggregated(s, p)
    ensures Aggregated(Take(s, Action.Receive), Track(s, p, Action.Receive))
  {
    hide Placed, LiveTally, Add, MergeRow, HasRoom, Tally, MergeRows, BatchAt;
    ChannelSingle(s, p);
    TallyMore(p.waiting, s.channel[0]);
  }

  lemma AggregatedTick(s: State, p: Parts, id: BatchId)
    requires Enabled(s, Action.Tick(id)) && Aggregated(s, p) && Disciplined(s)
    ensures Aggregated(Take(s, Action.Tick(id)), Track(s, p, Action.Tick(id)))
  {
    hide LiveTally, Add, MergeRow;
    FreshTick(s, id);
  }

  lemma AggregatedCommit(s: State, p: Parts, b: Batch)
    requires Enabled(s, Action.Commit(b)) && Aggregated(s, p) && Disciplined(s)
    ensures Aggregated(Take(s, Action.Commit(b)), Track(s, p, Action.Commit(b)))
  {
    hide LiveTally, Add, MergeRow, MergeRows;
    TallyConcat(p.stored, p.held);
  }

  lemma FreshTick(s: State, id: BatchId)
    requires Enabled(s, Action.Tick(id)) && Disciplined(s)
    ensures id !in s.committed
  {
  }

  // ---------------------------------------------------------------- whole runs

  ghost predicate Possible(run: seq<Action>)
    decreases |run|, 0
  {
    |run| == 0 || (Possible(run[..|run| - 1]) && Enabled(StateAfter(run[..|run| - 1]), run[|run| - 1]))
  }

  ghost function StateAfter(run: seq<Action>): State
    requires Possible(run)
    decreases |run|, 1
  {
    if |run| == 0 then IDLE else Take(StateAfter(run[..|run| - 1]), run[|run| - 1])
  }

  ghost function PartsAfter(run: seq<Action>): Parts
    requires Possible(run)
  {
    if |run| == 0 then Parts([], [], [], [], [])
    else
      var front := run[..|run| - 1];
      Track(StateAfter(front), PartsAfter(front), run[|run| - 1])
  }

  /** In every reachable state each recorded event is in exactly one place, each aggregate is that of its place, and
      memory is bounded: a batch is added to the table once, whatever was lost or repeated on the way. */
  lemma {:induction false} AlwaysAccounted(run: seq<Action>)
    requires Possible(run)
    ensures Placed(StateAfter(run), PartsAfter(run))
    ensures Aggregated(StateAfter(run), PartsAfter(run))
    ensures Disciplined(StateAfter(run)) && Bounded(StateAfter(run))
  {
    if |run| > 0 {
      var front, last := run[..|run| - 1], run[|run| - 1];
      AlwaysAccounted(front);
      hide Placed, Aggregated, Disciplined, Bounded, Take, Track, Enabled;
      PlacedStep(StateAfter(front), PartsAfter(front), last);
      AggregatedStep(StateAfter(front), PartsAfter(front), last);
      DisciplinedStep(StateAfter(front), last);
      BoundedStep(StateAfter(front), last);
    }
  }

  function Together(a: Totals, b: Totals, c: Totals, d: Totals, e: Totals, f: Totals): Totals {
    Add(Add(Add(Add(Add(a, b), c), d), e), f)
  }

  lemma SumOfParts(s: State, p: Parts, key: Key)
    requires Placed(s, p)
    ensures Sum(p.recorded, key) == Together(Sum(s.recording, key), Sum(s.channel, key), Sum(p.waiting, key),
                                             Sum(p.held, key), Sum(p.stored, key), Sum(p.lost, key))
  {
    hide Sum, Add, Single;
    SumPermuted(p.recorded, s.recording + s.channel + p.waiting + p.held + p.stored + p.lost, key);
    SumConcat(s.recording + s.channel + p.waiting + p.held + p.stored, p.lost, key);
    SumConcat(s.recording + s.channel + p.waiting + p.held, p.stored, key);
    SumConcat(s.recording + s.channel + p.waiting, p.held, key);
    SumConcat(s.recording + s.channel, p.waiting, key);
    SumConcat(s.recording, s.channel, key);
  }

  /** Conservation, for every key and every counter at once: the live figures are those still being recorded, in the
      channel, pending, in the batch at hand, in the table, and dropped, together. */
  lemma Conservation(run: seq<Action>, key: Key)
    requires Possible(run)
    ensures var s, lost := StateAfter(run), PartsAfter(run).lost;
            && Get(s.live, key) == Together(Sum(s.recording, key), Sum(s.channel, key), Whole(s.pending, key),
                                            Whole(Unapplied(s), key), Whole(s.table, key), Sum(lost, key))
            && s.dropped == |lost|
  {
    AlwaysAccounted(run);
    var s, p := StateAfter(run), PartsAfter(run);
    SumOfParts(s, p, key);
    LiveIsSum(p.recorded, key);
    WholeOfTally(p.waiting, key);
    WholeOfTally(p.held, key);
    WholeOfTally(p.stored, key);
  }

  ghost predicate Drained(s: State) {
    s.recording == [] && s.channel == [] && s.pending == map[] && Unapplied(s) == map[]
  }

  lemma NothingTwice(lost: seq<Event>, key: Key)
    ensures |lost| == 0 ==> Sum(lost, key) == Zero()
    ensures Sum([], key) == Zero() && Whole(map[], key) == Zero()
  {
  }

  lemma Alone(t: Totals)
    ensures Together(Zero(), Zero(), Zero(), Zero(), t, Zero()) == t
  {
    AddZero(Zero());
    AddZero(t);
  }

  /** Once everything has drained and nothing was dropped, the table says what the live counters say. */
  lemma DrainedMatches(run: seq<Action>, key: Key)
    requires Possible(run) && Drained(StateAfter(run)) && StateAfter(run).dropped == 0
    ensures Whole(StateAfter(run).table, key) == Get(StateAfter(run).live, key)
  {
    Conservation(run, key);
    NothingTwice(PartsAfter(run).lost, key);
    hide *;
    var stored := Whole(StateAfter(run).table, key);
    Alone(stored);
  }

  /** A commit acknowledged late, lost or repeated adds nothing: the second commit of a batch changes nothing, and a batch
      leaves memory only when the table holds it. */
  lemma CommitTwice(run: seq<Action>, b: Batch)
    requires Possible(run) && b in StateAfter(run).sent
    ensures var once := Take(StateAfter(run), Action.Commit(b));
            Enabled(once, Action.Commit(b)) && Take(once, Action.Commit(b)) == once
    ensures StateAfter(run).batch != Some(b) ==> b.id in StateAfter(run).committed
  {
    AlwaysAccounted(run);
  }
}
