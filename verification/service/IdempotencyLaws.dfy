/** What the answers to keyed requests go back to, and when the body of a request may run again. */
module IdempotencyLaws {
  import opened Machine
  import opened Idempotency

  // ---------------------------------------------------------------- answers are earned

  /** The hash is that of a request, and the reply that of a finished body. */
  predicate Asked(run: seq<Action>, hash: Hash) {
    Begin(hash) in run
  }

  predicate Produced(run: seq<Action>, reply: Reply) {
    Finish(Some(reply)) in run
  }

  predicate PhaseEarned(run: seq<Action>, phase: Phase) {
    match phase
    case Free => true
    case Checking(hash) => Asked(run, hash)
    case Claiming(hash) => Asked(run, hash)
    case Looking(hash) => Asked(run, hash)
    case Running(hash) => Asked(run, hash)
    case Clearing => true
    case Recording(hash, reply) => Asked(run, hash) && Produced(run, reply)
  }

  predicate StatementEarned(run: seq<Action>, statement: Statement) {
    match statement
    case ClaimRow(hash) => Asked(run, hash)
    case DeleteRow => true
    case UpdateRow(reply) => Produced(run, reply)
  }

  ghost predicate StoresEarned(s: State, run: seq<Action>) {
    && (s.memory.Some? ==> Asked(run, s.memory.value.hash) && Produced(run, s.memory.value.reply))
    && (s.row.Some? ==> Asked(run, s.row.value.hash))
    && (s.row.Some? && s.row.value.reply.Some? ==> Produced(run, s.row.value.reply.value))
    && PhaseEarned(run, s.phase)
    && forall statement :: statement in s.stray ==> StatementEarned(run, statement)
  }

  /** A success repeats a reply that some body produced; a conflict was with another request. */
  predicate AnswerEarned(run: seq<Action>, answer: Answer) {
    && Asked(run, answer.hash)
    && (answer.Success? ==> Produced(run, answer.reply))
    && (answer.Conflict? ==> exists n :: 0 <= n < |run| && run[n].Begin? && run[n].hash != answer.hash)
  }

  ghost predicate AnswersEarned(s: State, run: seq<Action>) {
    forall i :: 0 <= i < |s.answers| ==> AnswerEarned(run, s.answers[i])
  }

  lemma OtherAsked(run: seq<Action>, hash: Hash, answer: Answer)
    requires Asked(run, hash) && Asked(run, answer.hash) && answer.Conflict? && answer.hash != hash
    ensures AnswerEarned(run, answer)
  {
    var n :| 0 <= n < |run| && run[n] == Begin(hash);
  }

  lemma RowEarned(s: State, statement: Statement, run: seq<Action>)
    requires StoresEarned(s, run) && StatementEarned(run, statement)
    ensures StoresEarned(Executed(s, statement), run)
  {
  }

  lemma StopEarned(s: State, done: bool, run: seq<Action>)
    requires StoresEarned(s, run)
    ensures StoresEarned(Stopped(s, done), run)
  {
    var awaited := Awaited(s.phase);
    if awaited.Some? {
      hide Executed;
      assert StatementEarned(run, awaited.value);
      RowExecuted(s, awaited.value);
      RowEarned(s, awaited.value, run);
    }
  }

  lemma EarnedLonger(s: State, run: seq<Action>, a: Action)
    requires StoresEarned(s, run)
    ensures StoresEarned(s, run + [a])
    ensures AnswersEarned(s, run) ==> AnswersEarned(s, run + [a])
  {
    var longer := run + [a];
    assert forall x :: x in run ==> x in longer;
    assert forall n :: 0 <= n < |run| ==> longer[n] == run[n];
    if AnswersEarned(s, run) {
      forall i | 0 <= i < |s.answers|
        ensures AnswerEarned(longer, s.answers[i])
      {
        assert AnswerEarned(run, s.answers[i]);
      }
    }
  }

  /** What a step does once it is part of the run. */
  lemma EarnedStep(s: State, a: Action, run: seq<Action>)
    requires Enabled(s, a) && a in run && StoresEarned(s, run)
    ensures StoresEarned(Take(s, a), run)
  {
    match a
    case Abandon(done) => StopEarned(s, done, run);
    case Restart(done) => StopEarned(s, done, run);
    case Late(statement) => RowEarned(s, statement, run);
    case Begin(_) =>
    case Check =>
    case Claim =>
    case Look =>
    case Finish(_) =>
    case Cleared =>
    case Recorded =>
    case Pass(_) =>
  }

  lemma AnswerStep(s: State, a: Action, run: seq<Action>)
    requires Enabled(s, a) && a in run && StoresEarned(s, run)
    ensures var after := Take(s, a).answers;
            after == s.answers || (|after| == |s.answers| + 1 && after[..|s.answers|] == s.answers
                                   && AnswerEarned(run, after[|s.answers|]))
  {
    hide Executed;
    if a.Check? && s.memory.Some? && s.memory.value.hash != s.phase.hash {
      OtherAsked(run, s.memory.value.hash, Conflict(s.phase.hash));
    }
    if a.Look? && s.row.Some? && s.row.value.hash != s.phase.hash {
      OtherAsked(run, s.row.value.hash, Conflict(s.phase.hash));
    }
    if a.Late? {
      RowExecuted(s, a.statement);
    }
    if Awaited(s.phase).Some? {
      RowExecuted(s, Awaited(s.phase).value);
    }
  }

  lemma AnswersMore(answers: seq<Answer>, s: State, after: State, run: seq<Action>)
    requires answers == s.answers && AnswersEarned(s, run)
    requires after.answers == answers
             || (|after.answers| == |answers| + 1 && after.answers[..|answers|] == answers
                 && AnswerEarned(run, after.answers[|answers|]))
    ensures AnswersEarned(after, run)
  {
    hide AnswerEarned;
    forall i | 0 <= i < |answers|
      ensures after.answers[i] == answers[i]
    {
      assert after.answers != answers ==> after.answers[..|answers|][i] == after.answers[i];
    }
  }

  /** Over every run, with restarts and late statements: each answer is to a request that was made; a success repeats a
      reply that some body produced, and a conflict is with a request that differed. */
  lemma {:induction false} AnswersGoBack(start: State, run: seq<Action>)
    requires IsNew(start) && Possible(start, run)
    ensures StoresEarned(StateAfter(start, run), run) && AnswersEarned(StateAfter(start, run), run)
  {
    if |run| > 0 {
      var front, last := run[..|run| - 1], run[|run| - 1];
      assert run == front + [last];
      var s := StateAfter(start, front);
      AnswersGoBack(start, front);
      hide StoresEarned, AnswersEarned, Take, Enabled, AnswerEarned;
      EarnedLonger(s, front, last);
      EarnedStep(s, last, run);
      AnswerStep(s, last, run);
      AnswersMore(s.answers, s, Take(s, last), run);
    }
  }

  // ---------------------------------------------------------------- a success is recorded

  /** The handler's own claim is in the row as long as its body runs and its reply is being recorded. */
  predicate ClaimInRow(s: State) {
    s.persistent && (s.phase.Running? || s.phase.Recording?) ==>
      s.row.Some? && s.row.value.hash == s.phase.hash && s.row.value.reply.None?
  }

  lemma ClaimStep(s: State, a: Action)
    requires Enabled(s, a) && !a.Late? && ClaimInRow(s)
    ensures ClaimInRow(Take(s, a))
  {
    hide Executed;
  }

  lemma {:induction false} ClaimStaysInRow(start: State, run: seq<Action>)
    requires IsNew(start) && Possible(start, run) && Prompt(run, 0)
    ensures ClaimInRow(StateAfter(start, run))
  {
    if |run| > 0 {
      var front := run[..|run| - 1];
      assert forall i :: 0 <= i < |front| ==> front[i] == run[i];
      ClaimStaysInRow(start, front);
      hide ClaimInRow, Take, Enabled;
      ClaimStep(StateAfter(start, front), run[|run| - 1]);
    }
  }

  lemma RecordStep(s: State)
    requires s.phase.Recording? && s.row.Some? && s.row.value.hash == s.phase.hash
    ensures Take(s, Recorded).answers == s.answers + [Success(s.phase.hash, s.phase.reply)]
    ensures InRow(Take(s, Recorded), s.phase.hash, s.phase.reply)
  {
  }

  /** Without late statements, a reply that goes out after the row was updated is in the row, and so final over restarts. */
  lemma RecordedIsFinal(start: State, run: seq<Action>, longer: seq<Action>, hash: Hash, reply: Reply)
    requires IsNew(start) && start.persistent && Possible(start, run) && Prompt(run, 0)
    requires StateAfter(start, run).phase == Recording(hash, reply)
    requires run + [Recorded] <= longer && Possible(start, longer) && Prompt(longer, 0)
    ensures OnlyRepeats(StateAfter(start, run), StateAfter(start, longer), hash, reply)
  {
    ClaimStaysInRow(start, run);
    StillPersistent(start, run);
    var recorded := LastStep(start, run, hash, reply);
    RecordStep(StateAfter(start, run));
    SuccessDecides(start, recorded, hash, reply);
    hide StateAfter, Possible, Take, InRow, Decided;
    StaysDecided(start, recorded, longer, hash, reply);
    RepeatsAfter(StateAfter(start, run), StateAfter(start, recorded), StateAfter(start, longer), hash, reply);
  }

  lemma {:induction false} StillPersistent(start: State, run: seq<Action>)
    requires Possible(start, run)
    ensures StateAfter(start, run).persistent == start.persistent
  {
    if |run| > 0 {
      var front := run[..|run| - 1];
      StillPersistent(start, front);
      var s, a := StateAfter(start, front), run[|run| - 1];
      hide Executed;
      if a.Late? {
        RowExecuted(s, a.statement);
      }
      if Awaited(s.phase).Some? {
        RowExecuted(s, Awaited(s.phase).value);
      }
    }
  }

  lemma RepeatsAfter(s: State, recorded: State, later: State, hash: Hash, reply: Reply)
    requires recorded.answers == s.answers + [Success(hash, reply)] && recorded.runs == s.runs
    requires OnlyRepeats(recorded, later, hash, reply)
    ensures OnlyRepeats(s, later, hash, reply)
  {
    forall i | |s.answers| <= i < |later.answers|
      ensures Repeats(later.answers[i], hash, reply)
    {
      if i == |s.answers| {
        assert later.answers[i] == recorded.answers[i];
      }
    }
  }

  // ---------------------------------------------------------------- when the body may run again

  /** When the body fails, a request made right afterwards runs its body at once, exactly if the row holds no reply. */
  lemma FailureFreesKey(start: State, run: seq<Action>, hash: Hash) returns (longer: seq<Action>)
    requires IsNew(start) && Possible(start, run) && StateAfter(start, run).phase.Running?
    ensures longer == run + [Finish(None)] + (if start.persistent then [Cleared, Begin(hash), Check, Claim]
                                              else [Begin(hash), Check])
    ensures Possible(start, longer)
    ensures StateAfter(start, longer).runs
         == StateAfter(start, run).runs + if Finished(StateAfter(start, run)) then 0 else 1
    ensures !Finished(StateAfter(start, run)) ==> StateAfter(start, longer).phase == Running(hash)
  {
    hide Possible, StateAfter;
    AlwaysCoherent(start, run);
    StillPersistent(start, run);
    longer := Extend(start, run, Finish(None));
    if start.persistent {
      longer := Extend(start, longer, Cleared);
      longer := ClaimAgain(start, longer, hash);
    } else {
      longer := Extend(start, longer, Begin(hash));
      longer := Extend(start, longer, Check);
    }
  }

  lemma ClaimAgain(start: State, run: seq<Action>, hash: Hash) returns (longer: seq<Action>)
    requires Possible(start, run) && StateAfter(start, run).persistent && StateAfter(start, run).phase == Free
    requires StateAfter(start, run).memory.None? && (StateAfter(start, run).row.None? || Finished(StateAfter(start, run)))
    ensures longer == run + [Begin(hash), Check, Claim] && Possible(start, longer)
    ensures var s, later := StateAfter(start, run), StateAfter(start, longer);
            && later.runs == s.runs + (if Finished(s) then 0 else 1)
            && (!Finished(s) ==> later.phase == Running(hash))
  {
    hide Possible, StateAfter;
    longer := Extend(start, run, Begin(hash));
    longer := Extend(start, longer, Check);
    longer := Extend(start, longer, Claim);
  }

  /** No body runs, and the row holds a claim until then that nothing is about to delete. */
  predicate Held(s: State, until: nat) {
    && s.persistent && s.memory.None? && !s.phase.Running? && !s.phase.Clearing? && !s.phase.Recording?
    && s.row.Some? && (s.row.value.reply.Some? || s.row.value.lockedUntil == until)
    && DeleteRow !in s.stray
  }

  lemma HeldStep(s: State, a: Action, until: nat)
    requires Enabled(s, a) && Held(s, until) && s.now <= until
    ensures Held(Take(s, a), until) && Take(s, a).runs == s.runs
  {
    match a
    case Abandon(done) => HeldStops(s, done, until);
    case Restart(done) => HeldStops(s, done, until);
    case Late(statement) => HeldExecutes(s, statement, until);
    case Begin(_) =>
    case Check =>
    case Claim =>
    case Look =>
    case Finish(_) =>
    case Cleared =>
    case Recorded =>
    case Pass(_) =>
  }

  lemma HeldExecutes(s: State, statement: Statement, until: nat)
    requires Held(s, until) && s.now <= until && statement != DeleteRow
    ensures Held(Executed(s, statement), until) && Executed(s, statement).runs == s.runs
  {
  }

  lemma HeldStops(s: State, done: bool, until: nat)
    requires Held(s, until) && s.now <= until
    ensures Held(Stopped(s, done), until) && Stopped(s, done).runs == s.runs
  {
    var awaited := Awaited(s.phase);
    if awaited.Some? {
      hide Executed;
      RowExecuted(s, awaited.value);
      HeldExecutes(s, awaited.value, until);
    }
  }

  /** Time only goes on. */
  lemma NowStep(s: State, a: Action)
    requires Enabled(s, a)
    ensures s.now <= Take(s, a).now
  {
    hide Executed;
    if a.Late? {
      RowExecuted(s, a.statement);
    }
    if Awaited(s.phase).Some? {
      RowExecuted(s, Awaited(s.phase).value);
    }
  }

  lemma {:induction false} StaysHeld(start: State, run: seq<Action>, longer: seq<Action>, until: nat)
    requires Possible(start, run) && run <= longer && Possible(start, longer) && Held(StateAfter(start, run), until)
    requires StateAfter(start, longer).now <= until
    ensures Held(StateAfter(start, longer), until) && StateAfter(start, longer).runs == StateAfter(start, run).runs
  {
    if |run| == |longer| {
      assert run == longer;
    } else {
      var front := longer[..|longer| - 1];
      NowStep(StateAfter(start, front), longer[|longer| - 1]);
      StaysHeld(start, run, front, until);
      hide Held, Take, Enabled;
      HeldStep(StateAfter(start, front), longer[|longer| - 1], until);
    }
  }

  /** When the process restarts while a body runs, the body does not run again for the two minutes of its claim, whatever
      happens, and then it can; unless the deletion of an earlier run's row is still on its way. */
  lemma ClaimOutlivesProcess(start: State, run: seq<Action>, hash: Hash, done: bool, later: Hash)
      returns (again: seq<Action>)
    requires IsNew(start) && start.persistent && Possible(start, run + [Claim]) && Possible(start, run)
    requires StateAfter(start, run + [Claim]).phase == Running(hash) && DeleteRow !in StateAfter(start, run).stray
    ensures Possible(start, run + [Claim, Restart(done)])
    ensures forall longer :: run + [Claim, Restart(done)] <= longer && Possible(start, longer)
                             && StateAfter(start, longer).now <= StateAfter(start, run).now + 120 ==>
              StateAfter(start, longer).runs == StateAfter(start, run).runs + 1
    ensures run + [Claim, Restart(done)] <= again && Possible(start, again)
    ensures StateAfter(start, again).runs == StateAfter(start, run).runs + 2
    ensures StateAfter(start, again).now == StateAfter(start, run).now + 121
  {
    hide StateAfter, Possible, Held, NoReplyUntil, Finished, Claimable;
    StillPersistent(start, run);
    var now := StateAfter(start, run).now;
    var crashed := Crash(start, run, hash, done);
    forall longer | crashed <= longer && Possible(start, longer) && StateAfter(start, longer).now <= now + 120
      ensures StateAfter(start, longer).runs == StateAfter(start, run).runs + 1
    {
      StaysHeld(start, crashed, longer, now + 120);
    }
    again := RunAfterClaim(start, crashed, later, now);
  }

  /** The state left by a crash: an idle process, and a claim in the row. */
  predicate NoReplyUntil(s: State, until: nat) {
    s.phase == Free && s.memory.None? && s.row.Some? && s.row.value.reply.None? && s.row.value.lockedUntil == until
  }

  lemma CrashHeld(s: State, hash: Hash, done: bool)
    requires s.persistent && Enabled(s, Claim) && Take(s, Claim).phase == Running(hash) && DeleteRow !in s.stray
    ensures var after := Take(Take(s, Claim), Restart(done));
            && Held(after, s.now + 120) && NoReplyUntil(after, s.now + 120)
            && after.persistent && after.now == s.now && after.runs == s.runs + 1
  {
  }

  lemma Crash(start: State, run: seq<Action>, hash: Hash, done: bool) returns (crashed: seq<Action>)
    requires Possible(start, run + [Claim]) && Possible(start, run) && StateAfter(start, run).persistent
    requires StateAfter(start, run + [Claim]).phase == Running(hash) && DeleteRow !in StateAfter(start, run).stray
    ensures crashed == run + [Claim, Restart(done)] && Possible(start, crashed)
    ensures var s, now := StateAfter(start, crashed), StateAfter(start, run).now;
            && Held(s, now + 120) && NoReplyUntil(s, now + 120)
            && s.persistent && s.now == now && s.runs == StateAfter(start, run).runs + 1
  {
    hide Held, NoReplyUntil, Take;
    assert (run + [Claim])[..|run|] == run;
    var claimed := Extend(start, run, Claim);
    crashed := Extend(start, claimed, Restart(done));
    CrashHeld(StateAfter(start, run), hash, done);
  }

  lemma RunAfterClaim(start: State, run: seq<Action>, hash: Hash, now: nat) returns (again: seq<Action>)
    requires Possible(start, run) && NoReplyUntil(StateAfter(start, run), now + 120)
    requires StateAfter(start, run).persistent && StateAfter(start, run).now == now
    ensures run <= again && Possible(start, again)
    ensures StateAfter(start, again).runs == StateAfter(start, run).runs + 1 && StateAfter(start, again).now == now + 121
  {
    hide StateAfter, Possible;
    again := Extend(start, run, Pass(121));
    again := RunBody(start, again, hash);
  }
}
