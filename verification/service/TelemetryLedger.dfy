/** Aggregates of telemetry events by minute and key, and the laws that let batches be added in any grouping. */
module TelemetryLedger {
  import opened Sorting
  import opened LatencyStats

  /** A kind of measurement with its endpoint, method and status. */
  type Key = int

  datatype Event = Event(minute: int, key: Key, totals: Totals)

  type Row = (int, Key)

  function Get<K>(rows: map<K, Totals>, k: K): Totals {
    if k in rows then rows[k] else Zero()
  }

  /** `entry(k).or_default().merge(t)` */
  function MergeRow<K>(rows: map<K, Totals>, k: K, t: Totals): map<K, Totals> {
    rows[k := Add(Get(rows, k), t)]
  }

  /** The rows of both, added where both have one. */
  function MergeRows<K>(table: map<K, Totals>, rows: map<K, Totals>): map<K, Totals> {
    map k | k in table.Keys + rows.Keys :: Add(Get(table, k), Get(rows, k))
  }

  /** The aggregate of a list of events, by minute and key. */
  function Tally(events: seq<Event>): map<Row, Totals> {
    if |events| == 0 then map[]
    else
      var last := events[|events| - 1];
      MergeRow(Tally(events[..|events| - 1]), (last.minute, last.key), last.totals)
  }

  /** The aggregate by key alone. */
  function LiveTally(events: seq<Event>): map<Key, Totals> {
    if |events| == 0 then map[]
    else
      var last := events[|events| - 1];
      MergeRow(LiveTally(events[..|events| - 1]), last.key, last.totals)
  }

  function Of(e: Event, key: Key): Totals {
    if e.key == key then e.totals else Zero()
  }

  /** What the events say about one key. */
  function Sum(events: seq<Event>, key: Key): Totals {
    if |events| == 0 then Zero() else Add(Sum(events[..|events| - 1], key), Of(events[|events| - 1], key))
  }

  lemma MergeRowLast<K>(table: map<K, Totals>, rows: map<K, Totals>, k: K, t: Totals)
    ensures MergeRow(MergeRows(table, rows), k, t) == MergeRows(table, MergeRow(rows, k, t))
  {
    AddAssociates(Get(table, k), Get(rows, k), t);
    AddZero(Zero());
    hide Add;
    var left, right := MergeRow(MergeRows(table, rows), k, t), MergeRows(table, MergeRow(rows, k, t));
    assert left.Keys == right.Keys;
    assert left[k] == right[k];
    forall j | j in left && j != k
      ensures left[j] == right[j]
    {
    }
  }

  lemma MergeRowsEmpty<K>(table: map<K, Totals>)
    ensures MergeRows(table, map[]) == table
  {
    forall k | k in table
      ensures MergeRows(table, map[])[k] == table[k]
    {
      AddZero(table[k]);
    }
  }

  /** Adding a batch to the table is the same as aggregating its events after those already there. */
  lemma {:induction false} TallyConcat(a: seq<Event>, b: seq<Event>)
    ensures MergeRows(Tally(a), Tally(b)) == Tally(a + b)
  {
    if |b| == 0 {
      assert a + b == a;
      MergeRowsEmpty(Tally(a));
    } else {
      var front, last := b[..|b| - 1], b[|b| - 1];
      assert (a + b)[..|a + b| - 1] == a + front;
      TallyConcat(a, front);
      MergeRowLast(Tally(a), Tally(front), (last.minute, last.key), last.totals);
    }
  }

  lemma TallyMore(events: seq<Event>, e: Event)
    ensures Tally(events + [e]) == MergeRow(Tally(events), (e.minute, e.key), e.totals)
  {
    assert (events + [e])[..|events|] == events;
    hide MergeRow;
  }

  lemma GetMerged(rows: map<Key, Totals>, k: Key, t: Totals, key: Key)
    ensures Get(MergeRow(rows, k, t), key) == Add(Get(rows, key), if k == key then t else Zero())
  {
    AddZero(Get(rows, key));
  }

  lemma {:induction false} LiveIsSum(events: seq<Event>, key: Key)
    ensures Get(LiveTally(events), key) == Sum(events, key)
  {
    hide Add, Get, MergeRow;
    if |events| > 0 {
      var front, last := events[..|events| - 1], events[|events| - 1];
      LiveIsSum(front, key);
      GetMerged(LiveTally(front), last.key, last.totals, key);
    } else {
      NothingLive(key);
    }
  }

  lemma NothingLive(key: Key)
    ensures Get(LiveTally([]), key) == Sum([], key)
  {
  }

  // ---------------------------------------------------------------- adding up the rows of a key

  function Part(row: Row, t: Totals, key: Key): Totals {
    if row.1 == key then t else Zero()
  }

  /** All rows of a key, added up over the minutes. */
  ghost function Whole(rows: map<Row, Totals>, key: Key): Totals
    decreases |rows|
  {
    if |rows| == 0 then Zero()
    else
      var row :| row in rows;
      Add(Whole(rows - {row}, key), Part(row, rows[row], key))
  }

  lemma AddSwaps(rest: Totals, x: Totals, y: Totals)
    ensures Add(Add(rest, x), y) == Add(Add(rest, y), x)
  {
    AddAssociates(rest, x, y);
    AddAssociates(rest, y, x);
    AddCommutes(x, y);
  }

  lemma Fewer(rows: map<Row, Totals>, row: Row)
    requires row in rows
    ensures |rows - {row}| < |rows|
  {
    assert (rows - {row}).Keys == rows.Keys - {row};
    assert |rows - {row}| == |(rows - {row}).Keys| && |rows| == |rows.Keys|;
  }

  /** The order of the rows does not matter. */
  lemma {:induction false} WholeWithout(rows: map<Row, Totals>, row: Row, key: Key)
    requires row in rows
    ensures Whole(rows, key) == Add(Whole(rows - {row}, key), Part(row, rows[row], key))
    decreases |rows|
  {
    assert |rows| > 0;
    var first :| first in rows && Whole(rows, key) == Add(Whole(rows - {first}, key), Part(first, rows[first], key));
    if first != row {
      hide Add, Part, Whole;
      var both := rows - {first} - {row};
      assert both == rows - {row} - {first};
      Fewer(rows, first);
      Fewer(rows, row);
      WholeWithout(rows - {first}, row, key);
      WholeWithout(rows - {row}, first, key);
      AddSwaps(Whole(both, key), Part(first, rows[first], key), Part(row, rows[row], key));
    }
  }

  lemma WholeMerged(rows: map<Row, Totals>, row: Row, t: Totals, key: Key)
    ensures Whole(MergeRow(rows, row, t), key) == Add(Whole(rows, key), Part(row, t, key))
  {
    var merged := MergeRow(rows, row, t);
    WholeWithout(merged, row, key);
    var rest := Whole(merged - {row}, key);
    if row in rows {
      assert merged - {row} == rows - {row};
      WholeWithout(rows, row, key);
      if row.1 == key {
        AddAssociates(rest, rows[row], t);
      } else {
        AddZero(rest);
      }
    } else {
      assert merged - {row} == rows;
      AddZero(t);
    }
  }

  lemma {:induction false} WholeOfTally(events: seq<Event>, key: Key)
    ensures Whole(Tally(events), key) == Sum(events, key)
  {
    if |events| > 0 {
      var front, last := events[..|events| - 1], events[|events| - 1];
      WholeOfTally(front, key);
      WholeMerged(Tally(front), (last.minute, last.key), last.totals, key);
    }
  }

  // ---------------------------------------------------------------- order does not matter

  lemma {:induction false} SumConcat(a: seq<Event>, b: seq<Event>, key: Key)
    ensures Sum(a + b, key) == Add(Sum(a, key), Sum(b, key))
  {
    if |b| == 0 {
      assert a + b == a;
      AddZero(Sum(a, key));
    } else {
      var front, last := b[..|b| - 1], b[|b| - 1];
      assert (a + b)[..|a + b| - 1] == a + front;
      SumConcat(a, front, key);
      AddAssociates(Sum(a, key), Sum(front, key), Of(last, key));
    }
  }

  lemma SumAround(a: seq<Event>, e: Event, b: seq<Event>, key: Key)
    ensures Sum(a + [e] + b, key) == Add(Sum(a + b, key), Of(e, key))
  {
    SumConcat(a + [e], b, key);
    SumConcat(a, b, key);
    assert (a + [e])[..|a|] == a;
    var x, y, z := Sum(a, key), Of(e, key), Sum(b, key);
    AddAssociates(x, y, z);
    AddAssociates(x, z, y);
    AddCommutes(y, z);
  }

  lemma {:induction false} SumPermuted(a: seq<Event>, b: seq<Event>, key: Key)
    requires multiset(a) == multiset(b)
    ensures Sum(a, key) == Sum(b, key)
  {
    assert |a| == |multiset(a)| == |multiset(b)| == |b|;
    if |a| > 0 {
      hide Sum, Add;
      var n := |a| - 1;
      var i := Elsewhere(a, n, b);
      SumPermuted(a[..n] + a[n + 1..], b[..i] + b[i + 1..], key);
      assert a[..n] + [a[n]] + a[n + 1..] == a && b[..i] + [b[i]] + b[i + 1..] == b;
      SumAround(a[..n], a[n], a[n + 1..], key);
      SumAround(b[..i], b[i], b[i + 1..], key);
    }
  }

  // ---------------------------------------------------------------- counter by counter

  /** A counter of the key's events, in their order. */
  function Figures(events: seq<Event>, key: Key, counter: Totals -> nat): seq<nat> {
    if |events| == 0 then []
    else
      var last := events[|events| - 1];
      Figures(events[..|events| - 1], key, counter) + if last.key == key then [counter(last.totals)] else []
  }

  /** Adding totals adds up this counter. */
  ghost predicate AddsUp(counter: Totals -> nat) {
    counter(Zero()) == 0 && forall a, b :: counter(Add(a, b)) == counter(a) + counter(b)
  }

  lemma {:induction false} CounterExact(events: seq<Event>, key: Key, counter: Totals -> nat)
    requires AddsUp(counter)
    ensures counter(Sum(events, key)) == Total(Figures(events, key, counter))
  {
    if |events| > 0 {
      var front, last := events[..|events| - 1], events[|events| - 1];
      CounterExact(front, key, counter);
      hide Add;
      var known := Figures(front, key, counter);
      assert known + [] == known;
      if last.key == key {
        assert (known + [counter(last.totals)])[..|known|] == known;
      }
    }
  }

  lemma {:induction false} LargestExact(events: seq<Event>, key: Key)
    ensures IsLargest(Sum(events, key).latencyMax, Figures(events, key, (t: Totals) => t.latencyMax))
  {
    if |events| > 0 {
      LargestExact(events[..|events| - 1], key);
      hide AddBuckets;
    }
  }

  lemma CountersAddUp()
    ensures AddsUp((t: Totals) => t.observations) && AddsUp((t: Totals) => t.latencySum)
    ensures AddsUp((t: Totals) => t.responseBytes) && AddsUp((t: Totals) => t.sizedResponses)
    ensures AddsUp((t: Totals) => t.results) && AddsUp((t: Totals) => t.emptyResults)
    ensures AddsUp((t: Totals) => t.warnedResults) && AddsUp((t: Totals) => t.realtimeFallbacks)
  {
  }

  /** What the events say about a key, counter by counter: all are added up, and of the latencies the largest is kept. */
  lemma SumExact(events: seq<Event>, key: Key)
    ensures var s := Sum(events, key);
            && s.observations == Total(Figures(events, key, (t: Totals) => t.observations))
            && s.latencySum == Total(Figures(events, key, (t: Totals) => t.latencySum))
            && s.responseBytes == Total(Figures(events, key, (t: Totals) => t.responseBytes))
            && s.sizedResponses == Total(Figures(events, key, (t: Totals) => t.sizedResponses))
            && s.results == Total(Figures(events, key, (t: Totals) => t.results))
            && s.emptyResults == Total(Figures(events, key, (t: Totals) => t.emptyResults))
            && s.warnedResults == Total(Figures(events, key, (t: Totals) => t.warnedResults))
            && s.realtimeFallbacks == Total(Figures(events, key, (t: Totals) => t.realtimeFallbacks))
    ensures IsLargest(Sum(events, key).latencyMax, Figures(events, key, (t: Totals) => t.latencyMax))
  {
    hide AddsUp, Sum, Figures, Total, IsLargest;
    CountersAddUp();
    CounterExact(events, key, (t: Totals) => t.observations);
    CounterExact(events, key, (t: Totals) => t.latencySum);
    CounterExact(events, key, (t: Totals) => t.responseBytes);
    CounterExact(events, key, (t: Totals) => t.sizedResponses);
    CounterExact(events, key, (t: Totals) => t.results);
    CounterExact(events, key, (t: Totals) => t.emptyResults);
    CounterExact(events, key, (t: Totals) => t.warnedResults);
    CounterExact(events, key, (t: Totals) => t.realtimeFallbacks);
    LargestExact(events, key);
  }

  function Bucket(t: Totals, i: nat): nat {
    if i < |t.buckets| then t.buckets[i] else 0
  }

  /** Every bucket of the histogram is added up, too. */
  lemma BucketsExact(events: seq<Event>, key: Key, i: nat)
    requires i < BUCKETS
    ensures Sum(events, key).buckets[i] == Total(Figures(events, key, (t: Totals) => Bucket(t, i)))
  {
    CounterExact(events, key, (t: Totals) => Bucket(t, i));
  }

  /** Every call site records one observation at a time. */
  ghost predicate Single(events: seq<Event>) {
    forall e :: e in events ==> e.totals.observations == 1
  }
}
