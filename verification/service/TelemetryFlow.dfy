/** When telemetry is dropped, and that it never gets stuck on its way to the table. */
module TelemetryFlow {
  import opened Machine
  import opened TelemetryLedger
  import opened Telemetry

  // ---------------------------------------------------------------- what is dropped

  /** An event that finds 4096 others in the channel, or 8192 pending rows and none of its own. */
  predicate TurnedAway(s: State, a: Action) {
    || (a.Send? && |s.channel| >= 4096)
    || (a.Receive? && |s.channel| > 0 && |s.pending| >= 8192 && (s.channel[0].minute, s.channel[0].key) !in s.pending)
  }

  ghost function TurnedAwayIn(run: seq<Action>): nat
    requires Possible(run)
  {
    if |run| == 0 then 0
    else
      var front := run[..|run| - 1];
      TurnedAwayIn(front) + if TurnedAway(StateAfter(front), run[|run| - 1]) then 1 else 0
  }

  lemma DropStep(s: State, p: Parts, a: Action)
    requires Enabled(s, a) && Placed(s, p)
    ensures Take(s, a).dropped == s.dropped + if TurnedAway(s, a) then 1 else 0
  {
    hide Placed, MergeRow, MergeRows, BatchAt;
    if a.Receive? {
      ChannelSingle(s, p);
    }
  }

  /** An event is dropped exactly when it is turned away from a full channel or from full aggregates. */
  lemma {:induction false} DroppedExactly(run: seq<Action>)
    requires Possible(run)
    ensures StateAfter(run).dropped == TurnedAwayIn(run)
  {
    if |run| > 0 {
      var front := run[..|run| - 1];
      DroppedExactly(front);
      AlwaysAccounted(front);
      hide Placed, Aggregated, Disciplined, Bounded, Take, Enabled, TurnedAway;
      DropStep(StateAfter(front), PartsAfter(front), run[|run| - 1]);
    }
  }

  // ---------------------------------------------------------------- everything can get to the table

  lemma Extend(run: seq<Action>, a: Action) returns (longer: seq<Action>)
    requires Possible(run) && Enabled(StateAfter(run), a)
    ensures longer == run + [a] && Possible(longer) && StateAfter(longer) == Take(StateAfter(run), a)
  {
    longer := run + [a];
    assert longer[..|longer| - 1] == run;
  }

  /** There is always a batch number nobody has used. */
  lemma {:induction false} UnusedId(sent: set<Batch>) returns (id: BatchId)
    ensures forall b :: b in sent ==> b.id < id
  {
    if sent == {} {
      id := 0;
    } else {
      var b :| b in sent;
      var rest := UnusedId(sent - {b});
      id := Max(rest, b.id + 1);
    }
  }

  /** The channel and the recorders, which the persistence loop leaves alone. */
  predicate SameInflow(s: State, later: State) {
    later.recording == s.recording && later.channel == s.channel && later.dropped == s.dropped
  }

  /** A batch under way can be committed and acknowledged. */
  lemma CommitNow(run: seq<Action>) returns (longer: seq<Action>)
    requires Possible(run) && StateAfter(run).awaiting && StateAfter(run).batch.Some?
    ensures run <= longer && Possible(longer) && SameInflow(StateAfter(run), StateAfter(longer))
    ensures var later := StateAfter(longer);
            later.batch == None && !later.awaiting && later.pending == StateAfter(run).pending
  {
    hide Possible, StateAfter, Placed, Aggregated, Bounded, MergeRows;
    AlwaysAccounted(run);
    longer := Extend(run, Commit(StateAfter(run).batch.value));
    longer := Extend(longer, Acknowledge);
  }

  /** A batch at hand can be persisted. */
  lemma PersistBatch(run: seq<Action>) returns (longer: seq<Action>)
    requires Possible(run)
    ensures run <= longer && Possible(longer) && SameInflow(StateAfter(run), StateAfter(longer))
    ensures var later := StateAfter(longer);
            later.batch == None && !later.awaiting && later.pending == StateAfter(run).pending
  {
    hide Possible, StateAfter, Placed, Aggregated, Bounded, MergeRow, MergeRows;
    AlwaysAccounted(run);
    longer := run;
    if StateAfter(run).batch.Some? {
      if !StateAfter(run).awaiting {
        var id := UnusedId(StateAfter(run).sent);
        longer := Extend(longer, Tick(id));
      }
      longer := CommitNow(longer);
    }
  }

  /** All that is pending can be persisted. */
  lemma Flush(run: seq<Action>) returns (longer: seq<Action>)
    requires Possible(run)
    ensures run <= longer && Possible(longer) && SameInflow(StateAfter(run), StateAfter(longer))
    ensures var later := StateAfter(longer); later.batch == None && !later.awaiting && later.pending == map[]
  {
    hide Possible, StateAfter;
    longer := PersistBatch(run);
    if |StateAfter(longer).pending| > 0 {
      var id := UnusedId(StateAfter(longer).sent);
      longer := Extend(longer, Tick(id));
      longer := CommitNow(longer);
    }
  }

  /** The channel can be emptied without losing an event. */
  lemma {:induction false} EmptyChannel(run: seq<Action>) returns (longer: seq<Action>)
    requires Possible(run)
    ensures run <= longer && Possible(longer)
    ensures var s, later := StateAfter(run), StateAfter(longer);
            && later.batch == None && !later.awaiting && later.pending == map[] && later.channel == []
            && later.recording == s.recording && later.dropped == s.dropped
    decreases |StateAfter(run).channel|
  {
    hide Possible, StateAfter;
    longer := Flush(run);
    if |StateAfter(longer).channel| > 0 {
      longer := Extend(longer, Receive);
      longer := EmptyChannel(longer);
    }
  }

  lemma {:induction false} EmptyRecorders(run: seq<Action>) returns (longer: seq<Action>)
    requires Possible(run)
    ensures run <= longer && Possible(longer) && StateAfter(longer).dropped == StateAfter(run).dropped
    ensures var later := StateAfter(longer);
            && later.batch == None && !later.awaiting && later.pending == map[] && later.channel == []
            && later.recording == []
    decreases |StateAfter(run).recording|
  {
    hide Possible, StateAfter;
    longer := EmptyChannel(run);
    if |StateAfter(longer).recording| > 0 {
      longer := Extend(longer, Send(0));
      longer := EmptyRecorders(longer);
    }
  }

  /** From every reachable state the pipeline can drain without losing another event. */
  lemma CanDrain(run: seq<Action>) returns (longer: seq<Action>)
    requires Possible(run)
    ensures run <= longer && Possible(longer)
    ensures Drained(StateAfter(longer)) && StateAfter(longer).dropped == StateAfter(run).dropped
  {
    longer := EmptyRecorders(run);
  }
}
