/** `idempotent`: how requests with one idempotency key run their body or repeat its reply, between await points under
    the key's lock, with the outcome in memory and a row in the database. */
module Idempotency {
  import opened Machine

  type Hash = int
  type Reply = int

  const LOCK_SECONDS: nat := 120

  /** What a request with the given hash was answered; failures of the body or the database leave no entry. */
  datatype Answer = Success(hash: Hash, reply: Reply) | Conflict(hash: Hash) | InProgress(hash: Hash)

  datatype Entry = Entry(hash: Hash, reply: Reply)

  datatype Row = Row(hash: Hash, lockedUntil: nat, reply: Option<Reply>)

  datatype Phase =
    | Free
    | Checking(hash: Hash)
    | Claiming(hash: Hash)
    | Looking(hash: Hash)
    | Running(hash: Hash)
    | Clearing
    | Recording(hash: Hash, reply: Reply)

  /** A statement on the row of the key. */
  datatype Statement = ClaimRow(hash: Hash) | DeleteRow | UpdateRow(reply: Reply)

  /** `stray` holds the statements whose request gave up before they took effect; the database may still execute them. */
  datatype State = State(
    persistent: bool,
    memory: Option<Entry>,
    row: Option<Row>,
    now: nat,
    phase: Phase,
    stray: multiset<Statement>,
    runs: nat,
    answers: seq<Answer>)

  datatype Action =
    | Begin(hash: Hash)
    | Check
    | Claim
    | Look
    | Finish(result: Option<Reply>)
    | Cleared
    | Recorded
    | Abandon(done: bool)
    | Restart(done: bool)
    | Pass(seconds: nat)
    | Late(statement: Statement)

  predicate IsNew(s: State) {
    s.memory == None && s.row == None && s.phase == Free && s.stray == multiset{} && s.runs == 0 && s.answers == []
  }

  predicate Enabled(s: State, a: Action) {
    match a
    case Begin(hash) => s.phase == Free
    case Check => s.phase.Checking?
    case Claim => s.phase.Claiming?
    case Look => s.phase.Looking?
    case Finish(result) => s.phase.Running?
    case Cleared => s.phase == Clearing
    case Recorded => s.phase.Recording?
    case Abandon(done) => s.phase != Free
    case Restart(done) => true
    case Pass(seconds) => true
    case Late(statement) => statement in s.stray
  }

  function Answered(s: State, answer: Answer): State {
    s.(phase := Free, answers := s.answers + [answer])
  }

  /** Whether the insert of a claim succeeds: there is no row, or one whose run never finished and has timed out. */
  predicate Claimable(s: State) {
    s.row.None? || (s.row.value.lockedUntil < s.now && s.row.value.reply.None?)
  }

  function Claimed(s: State, hash: Hash): State {
    if Claimable(s) then s.(row := Some(Row(hash, s.now + LOCK_SECONDS, None))) else s
  }

  /** The delete after a failed run spares a finished row. */
  function Deleted(s: State): State {
    if s.row.Some? && s.row.value.reply.None? then s.(row := None) else s
  }

  function Updated(s: State, reply: Reply): State {
    if s.row.Some? then s.(row := Some(s.row.value.(lockedUntil := s.now, reply := Some(reply)))) else s
  }

  function Executed(s: State, statement: Statement): State {
    match statement
    case ClaimRow(hash) => Claimed(s, hash)
    case DeleteRow => Deleted(s)
    case UpdateRow(reply) => Updated(s, reply)
  }

  /** The statement a request is waiting for. */
  function Awaited(phase: Phase): Option<Statement> {
    match phase
    case Claiming(hash) => Some(ClaimRow(hash))
    case Clearing => Some(DeleteRow)
    case Recording(hash, reply) => Some(UpdateRow(reply))
    case _ => None
  }

  function Stopped(s: State, done: bool): State {
    var awaited := Awaited(s.phase);
    var ended :=
      if awaited.None? then s
      else if done then Executed(s, awaited.value)
      else s.(stray := s.stray + multiset{awaited.value});
    ended.(phase := Free)
  }

  function Take(s: State, a: Action): State
    requires Enabled(s, a)
  {
    match a
    case Begin(hash) => s.(phase := Checking(hash))
    case Check =>
      var hash := s.phase.hash;
      if s.memory.Some? then
        Answered(s, if s.memory.value.hash != hash then Conflict(hash) else Success(hash, s.memory.value.reply))
      else if s.persistent then s.(phase := Claiming(hash))
      else s.(phase := Running(hash), runs := s.runs + 1)
    case Claim =>
      var hash := s.phase.hash;
      if Claimable(s) then Claimed(s, hash).(phase := Running(hash), runs := s.runs + 1)
      else s.(phase := Looking(hash))
    case Look =>
      var hash := s.phase.hash;
      if s.row.None? then s.(phase := Free)
      else if s.row.value.hash != hash then Answered(s, Conflict(hash))
      else if s.row.value.reply.Some? then Answered(s, Success(hash, s.row.value.reply.value))
      else Answered(s, InProgress(hash))
    case Finish(result) =>
      var hash := s.phase.hash;
      if result.None? then s.(phase := if s.persistent then Clearing else Free)
      else
        var remembered := s.(memory := Some(Entry(hash, result.value)));
        if s.persistent then remembered.(phase := Recording(hash, result.value))
        else Answered(remembered, Success(hash, result.value))
    case Cleared => Deleted(s).(phase := Free)
    case Recorded => Answered(Updated(s, s.phase.reply), Success(s.phase.hash, s.phase.reply))
    case Abandon(done) => Stopped(s, done)
    case Restart(done) => Stopped(s, done).(memory := None)
    case Pass(seconds) => s.(now := s.now + seconds)
    case Late(statement) => Executed(s, statement).(stray := s.stray - multiset{statement})
  }

  // ---------------------------------------------------------------- the program

  class KeyedRequests {
    const persistent: bool
    var memory: Option<Entry>
    var row: Option<Row>
    var now: nat
    var phase: Phase
    var stray: multiset<Statement>
    ghost var runs: nat
    ghost var answers: seq<Answer>

    ghost function Now(): State
      reads this
    {
      State(persistent, memory, row, now, phase, stray, runs, answers)
    }

    constructor (persistent: bool, now: nat)
      ensures IsNew(Now()) && Now().persistent == persistent
    {
      this.persistent, this.now := persistent, now;
      memory, row, phase := None, None, Free;
      stray, runs, answers := multiset{}, 0, [];
    }

    method Respond(answer: Answer)
      modifies this`phase, this`answers
      ensures Now() == Answered(old(Now()), answer)
    {
      phase := Free;
      answers := answers + [answer];
    }

    /** The key's lock is taken. */
    method Begin(hash: Hash)
      requires Enabled(Now(), Action.Begin(hash))
      modifies this
      ensures Now() == Take(old(Now()), Action.Begin(hash))
    {
      phase := Checking(hash);
    }

    /** The lookup in memory. */
    method Check()
      requires Enabled(Now(), Action.Check)
      modifies this
      ensures Now() == Take(old(Now()), Action.Check)
    {
      var hash := phase.hash;
      if memory.Some? {
        if memory.value.hash != hash {
          Respond(Conflict(hash));
          return;
        }
        Respond(Success(hash, memory.value.reply));
        return;
      }
      if persistent {
        phase := Claiming(hash);
      } else {
        phase := Running(hash);
        runs := runs + 1;
      }
    }

    /** The insert that claims the key in the database; when it succeeds the body starts. */
    method Claim()
      requires Enabled(Now(), Action.Claim)
      modifies this
      ensures Now() == Take(old(Now()), Action.Claim)
    {
      var hash := phase.hash;
      if row.None? || (row.value.lockedUntil < now && row.value.reply.None?) {
        row := Some(Row(hash, now + LOCK_SECONDS, None));
        phase := Running(hash);
        runs := runs + 1;
      } else {
        phase := Looking(hash);
      }
    }

    /** The lookup in the database when the claim failed. */
    method Look()
      requires Enabled(Now(), Action.Look)
      modifies this
      ensures Now() == Take(old(Now()), Action.Look)
    {
      var hash := phase.hash;
      if row.None? {
        phase := Free;
        return;
      }
      if row.value.hash != hash {
        Respond(Conflict(hash));
        return;
      }
      if row.value.reply.Some? {
        Respond(Success(hash, row.value.reply.value));
        return;
      }
      Respond(InProgress(hash));
    }

    /** The body has ended. */
    method Finish(result: Option<Reply>)
      requires Enabled(Now(), Action.Finish(result))
      modifies this
      ensures Now() == Take(old(Now()), Action.Finish(result))
    {
      var hash := phase.hash;
      if result.None? {
        phase := if persistent then Clearing else Free;
        return;
      }
      memory := Some(Entry(hash, result.value));
      if persistent {
        phase := Recording(hash, result.value);
      } else {
        Respond(Success(hash, result.value));
      }
    }

    /** The row of a failed run is deleted. */
    method Cleared()
      requires Enabled(Now(), Action.Cleared)
      modifies this
      ensures Now() == Take(old(Now()), Action.Cleared)
    {
      if row.Some? && row.value.reply.None? {
        row := None;
      }
      phase := Free;
    }

    /** The reply is in the row, and goes out. */
    method Recorded()
      requires Enabled(Now(), Action.Recorded)
      modifies this
      ensures Now() == Take(old(Now()), Action.Recorded)
    {
      var hash, reply := phase.hash, phase.reply;
      if row.Some? {
        row := Some(row.value.(lockedUntil := now, reply := Some(reply)));
      }
      Respond(Success(hash, reply));
    }

    /** The database executes a statement on the row. */
    method Execute(statement: Statement)
      modifies this`row
      ensures Now() == Executed(old(Now()), statement)
    {
      match statement
      case ClaimRow(hash) =>
        if row.None? || (row.value.lockedUntil < now && row.value.reply.None?) {
          row := Some(Row(hash, now + LOCK_SECONDS, None));
        }
      case DeleteRow =>
        if row.Some? && row.value.reply.None? {
          row := None;
        }
      case UpdateRow(reply) =>
        if row.Some? {
          row := Some(row.value.(lockedUntil := now, reply := Some(reply)));
        }
    }

    /** The request is dropped, or an awaited statement fails; `done` says whether it took effect. */
    method Abandon(done: bool)
      modifies this`row, this`phase, this`stray
      ensures Now() == Stopped(old(Now()), done)
    {
      var awaited := Awaited(phase);
      if awaited.Some? {
        if done {
          Execute(awaited.value);
        } else {
          stray := stray + multiset{awaited.value};
        }
      }
      phase := Free;
    }

    method Restart(done: bool)
      modifies this
      ensures Now() == Take(old(Now()), Action.Restart(done))
    {
      Abandon(done);
      memory := None;
    }

    /** A statement nobody waits for any more takes effect after all. */
    method Late(statement: Statement)
      requires Enabled(Now(), Action.Late(statement))
      modifies this
      ensures Now() == Take(old(Now()), Action.Late(statement))
    {
      Execute(statement);
      stray := stray - multiset{statement};
    }
  }

  // ---------------------------------------------------------------- what every step keeps

  /** What the place of the request in the code says about the key. */
  predicate Coherent(s: State) {
    && (s.row.Some? ==> s.persistent)
    && match s.phase
       case Claiming(_) => s.memory.None? && s.persistent
       case Looking(_) => s.memory.None? && s.persistent
       case Running(_) => s.memory.None?
       case Clearing => s.memory.None? && s.persistent
       case Recording(hash, reply) => s.memory == Some(Entry(hash, reply)) && s.persistent
       case _ => true
  }

  /** Statements only go astray when there is a database. */
  predicate StraysPersistent(s: State) {
    s.stray != multiset{} ==> s.persistent
  }

  /** A statement touches the row alone, creates one only as a claim, and spares the hash and the reply of a finished one,
      but for an update's own reply. */
  lemma RowExecuted(s: State, statement: Statement)
    ensures var after := Executed(s, statement);
            && after == s.(row := after.row)
            && (after.row.Some? ==> s.row.Some? || statement.ClaimRow?)
            && (Finished(s) ==> Finished(after) && after.row.value.hash == s.row.value.hash)
            && (Finished(s) && !statement.UpdateRow? ==> after.row.value.reply == s.row.value.reply)
            && (Finished(s) && statement.UpdateRow? ==> after.row.value.reply == Some(statement.reply))
  {
  }

  lemma CoherentAsks(s: State, a: Action)
    requires a.Begin? || a.Check? || a.Claim? || a.Look?
    requires Enabled(s, a) && Coherent(s) && StraysPersistent(s)
    ensures Coherent(Take(s, a)) && StraysPersistent(Take(s, a))
  {
  }

  lemma CoherentEnds(s: State, a: Action)
    requires a.Finish? || a.Cleared? || a.Recorded? || a.Pass?
    requires Enabled(s, a) && Coherent(s) && StraysPersistent(s)
    ensures Coherent(Take(s, a)) && StraysPersistent(Take(s, a))
  {
  }

  lemma CoherentBreaks(s: State, a: Action)
    requires a.Abandon? || a.Restart? || a.Late?
    requires Enabled(s, a) && Coherent(s) && StraysPersistent(s)
    ensures Coherent(Take(s, a)) && StraysPersistent(Take(s, a))
  {
    hide Executed;
    if a.Late? {
      RowExecuted(s, a.statement);
    } else {
      StopCoherent(s, a.done);
    }
  }

  lemma StopCoherent(s: State, done: bool)
    requires Coherent(s) && StraysPersistent(s)
    ensures var after := Stopped(s, done);
            Coherent(after) && StraysPersistent(after) && after.phase == Free && Coherent(after.(memory := None))
  {
    hide Executed;
    if Awaited(s.phase).Some? {
      RowExecuted(s, Awaited(s.phase).value);
    }
  }

  lemma CoherentStep(s: State, a: Action)
    requires Enabled(s, a) && Coherent(s) && StraysPersistent(s)
    ensures Coherent(Take(s, a)) && StraysPersistent(Take(s, a))
  {
    match a
    case Begin(_) => CoherentAsks(s, a);
    case Check => CoherentAsks(s, a);
    case Claim => CoherentAsks(s, a);
    case Look => CoherentAsks(s, a);
    case Finish(_) => CoherentEnds(s, a);
    case Cleared => CoherentEnds(s, a);
    case Recorded => CoherentEnds(s, a);
    case Pass(_) => CoherentEnds(s, a);
    case Abandon(_) => CoherentBreaks(s, a);
    case Restart(_) => CoherentBreaks(s, a);
    case Late(_) => CoherentBreaks(s, a);
  }

  /** The row holds some reply. */
  predicate Finished(s: State) {
    s.row.Some? && s.row.value.reply.Some?
  }

  predicate InRow(s: State, hash: Hash, reply: Reply) {
    s.row.Some? && s.row.value.hash == hash && s.row.value.reply == Some(reply)
  }

  /** No body is running or about to be reported. */
  predicate Quiet(s: State) {
    if s.memory.Some? then s.phase == Free || s.phase.Checking?
    else !s.phase.Running? && !s.phase.Clearing? && !s.phase.Recording?
  }

  /** The body has no reason to run again in this process. */
  predicate Over(s: State) {
    Quiet(s) && (s.memory.Some? || Finished(s))
  }

  /** The key has an outcome that the process will repeat. */
  predicate Decided(s: State, hash: Hash, reply: Reply) {
    Quiet(s) && if s.memory.Some? then s.memory.value == Entry(hash, reply) else InRow(s, hash, reply)
  }

  /** The answer the outcome demands. */
  predicate Repeats(answer: Answer, hash: Hash, reply: Reply) {
    answer == if answer.hash == hash then Success(hash, reply) else Conflict(answer.hash)
  }

  /** What may be added once the key is decided. */
  predicate OnlyRepeats(s: State, later: State, hash: Hash, reply: Reply) {
    && later.runs == s.runs
    && s.answers <= later.answers
    && forall i :: |s.answers| <= i < |later.answers| ==> Repeats(later.answers[i], hash, reply)
  }

  /** The statement, if it takes effect, does not put another reply into the row. */
  predicate Harmless(statement: Statement, reply: Reply) {
    statement.UpdateRow? ==> statement.reply == reply
  }

  ghost predicate NoOtherReply(s: State, reply: Reply) {
    forall statement :: statement in s.stray ==> Harmless(statement, reply)
  }

  lemma OverAsks(s: State, a: Action)
    requires a.Begin? || a.Check? || a.Claim? || a.Look?
    requires Enabled(s, a) && Coherent(s) && Over(s) && (a.Restart? ==> Finished(s))
    ensures Over(Take(s, a)) && Take(s, a).runs == s.runs
    ensures Finished(s) ==> Finished(Take(s, a))
  {
  }

  lemma OverEnds(s: State, a: Action)
    requires a.Finish? || a.Cleared? || a.Recorded? || a.Pass?
    requires Enabled(s, a) && Coherent(s) && Over(s) && (a.Restart? ==> Finished(s))
    ensures Over(Take(s, a)) && Take(s, a).runs == s.runs
    ensures Finished(s) ==> Finished(Take(s, a))
  {
  }

  lemma OverBreaks(s: State, a: Action)
    requires a.Abandon? || a.Restart? || a.Late?
    requires Enabled(s, a) && Coherent(s) && Over(s) && (a.Restart? ==> Finished(s))
    ensures Over(Take(s, a)) && Take(s, a).runs == s.runs
    ensures Finished(s) ==> Finished(Take(s, a))
  {
    hide Executed;
    RowExecuted(s, if a.Late? then a.statement else Awaited(s.phase).GetOr(DeleteRow));
  }

  /** Whatever takes effect late, a key that is over stays over. */
  lemma OverStep(s: State, a: Action)
    requires Enabled(s, a) && Coherent(s) && Over(s) && (a.Restart? ==> Finished(s))
    ensures Over(Take(s, a)) && Take(s, a).runs == s.runs
    ensures Finished(s) ==> Finished(Take(s, a))
  {
    match a
    case Begin(_) => OverAsks(s, a);
    case Check => OverAsks(s, a);
    case Claim => OverAsks(s, a);
    case Look => OverAsks(s, a);
    case Finish(_) => OverEnds(s, a);
    case Cleared => OverEnds(s, a);
    case Recorded => OverEnds(s, a);
    case Pass(_) => OverEnds(s, a);
    case Abandon(_) => OverBreaks(s, a);
    case Restart(_) => OverBreaks(s, a);
    case Late(_) => OverBreaks(s, a);
  }

  lemma DecidedAsks(s: State, a: Action, hash: Hash, reply: Reply)
    requires a.Begin? || a.Check? || a.Claim? || a.Look?
    requires Enabled(s, a) && Coherent(s) && Decided(s, hash, reply)
    requires a.Restart? ==> InRow(s, hash, reply)
    requires a.Late? ==> s.memory.Some? || Harmless(a.statement, reply)
    ensures Decided(Take(s, a), hash, reply) && OnlyRepeats(s, Take(s, a), hash, reply)
    ensures !a.Restart? ==> (s.memory.Some? ==> Take(s, a).memory.Some?)
    ensures InRow(s, hash, reply) && (a.Late? ==> Harmless(a.statement, reply)) ==> InRow(Take(s, a), hash, reply)
  {
  }

  lemma DecidedEnds(s: State, a: Action, hash: Hash, reply: Reply)
    requires a.Finish? || a.Cleared? || a.Recorded? || a.Pass?
    requires Enabled(s, a) && Coherent(s) && Decided(s, hash, reply)
    requires a.Restart? ==> InRow(s, hash, reply)
    requires a.Late? ==> s.memory.Some? || Harmless(a.statement, reply)
    ensures Decided(Take(s, a), hash, reply) && OnlyRepeats(s, Take(s, a), hash, reply)
    ensures !a.Restart? ==> (s.memory.Some? ==> Take(s, a).memory.Some?)
    ensures InRow(s, hash, reply) && (a.Late? ==> Harmless(a.statement, reply)) ==> InRow(Take(s, a), hash, reply)
  {
  }

  lemma DecidedBreaks(s: State, a: Action, hash: Hash, reply: Reply)
    requires a.Abandon? || a.Restart? || a.Late?
    requires Enabled(s, a) && Coherent(s) && Decided(s, hash, reply)
    requires a.Restart? ==> InRow(s, hash, reply)
    requires a.Late? ==> s.memory.Some? || Harmless(a.statement, reply)
    ensures Decided(Take(s, a), hash, reply) && OnlyRepeats(s, Take(s, a), hash, reply)
    ensures !a.Restart? ==> (s.memory.Some? ==> Take(s, a).memory.Some?)
    ensures InRow(s, hash, reply) && (a.Late? ==> Harmless(a.statement, reply)) ==> InRow(Take(s, a), hash, reply)
  {
    hide Executed;
    RowExecuted(s, if a.Late? then a.statement else Awaited(s.phase).GetOr(DeleteRow));
  }

  lemma DecidedStep(s: State, a: Action, hash: Hash, reply: Reply)
    requires Enabled(s, a) && Coherent(s) && Decided(s, hash, reply)
    requires a.Restart? ==> InRow(s, hash, reply)
    requires a.Late? ==> s.memory.Some? || Harmless(a.statement, reply)
    ensures Decided(Take(s, a), hash, reply) && OnlyRepeats(s, Take(s, a), hash, reply)
    ensures !a.Restart? ==> (s.memory.Some? ==> Take(s, a).memory.Some?)
    ensures InRow(s, hash, reply) && (a.Late? ==> Harmless(a.statement, reply)) ==> InRow(Take(s, a), hash, reply)
  {
    match a
    case Begin(_) => DecidedAsks(s, a, hash, reply);
    case Check => DecidedAsks(s, a, hash, reply);
    case Claim => DecidedAsks(s, a, hash, reply);
    case Look => DecidedAsks(s, a, hash, reply);
    case Finish(_) => DecidedEnds(s, a, hash, reply);
    case Cleared => DecidedEnds(s, a, hash, reply);
    case Recorded => DecidedEnds(s, a, hash, reply);
    case Pass(_) => DecidedEnds(s, a, hash, reply);
    case Abandon(_) => DecidedBreaks(s, a, hash, reply);
    case Restart(_) => DecidedBreaks(s, a, hash, reply);
    case Late(_) => DecidedBreaks(s, a, hash, reply);
  }

  /** A decided key sends no other reply astray. */
  lemma HarmlessStep(s: State, a: Action, hash: Hash, reply: Reply)
    requires Enabled(s, a) && Decided(s, hash, reply) && NoOtherReply(s, reply)
    ensures NoOtherReply(Take(s, a), reply)
  {
    forall statement | statement in Take(s, a).stray
      ensures Harmless(statement, reply)
    {
      assert statement in s.stray || Awaited(s.phase) == Some(statement);
    }
  }

  // ---------------------------------------------------------------- whole runs

  ghost predicate Possible(start: State, run: seq<Action>)
    decreases |run|, 0
  {
    |run| == 0
    || (Possible(start, run[..|run| - 1]) && Enabled(StateAfter(start, run[..|run| - 1]), run[|run| - 1]))
  }

  ghost function StateAfter(start: State, run: seq<Action>): State
    requires Possible(start, run)
    decreases |run|, 1
  {
    if |run| == 0 then start else Take(StateAfter(start, run[..|run| - 1]), run[|run| - 1])
  }

  lemma {:induction false} AlwaysCoherent(start: State, run: seq<Action>)
    requires IsNew(start) && Possible(start, run)
    ensures Coherent(StateAfter(start, run)) && StraysPersistent(StateAfter(start, run))
  {
    if |run| > 0 {
      AlwaysCoherent(start, run[..|run| - 1]);
      hide Coherent, StraysPersistent, Take, Enabled;
      CoherentStep(StateAfter(start, run[..|run| - 1]), run[|run| - 1]);
    }
  }

  /** The last step of the run answered a request with success. */
  ghost predicate JustSucceeded(start: State, run: seq<Action>, hash: Hash, reply: Reply)
    requires Possible(start, run)
  {
    && |run| > 0
    && StateAfter(start, run).answers == StateAfter(start, run[..|run| - 1]).answers + [Success(hash, reply)]
  }

  lemma SuccessDecides(start: State, run: seq<Action>, hash: Hash, reply: Reply)
    requires IsNew(start) && Possible(start, run) && JustSucceeded(start, run, hash, reply)
    ensures Decided(StateAfter(start, run), hash, reply) && StateAfter(start, run).phase == Free
  {
    var before, a := StateAfter(start, run[..|run| - 1]), run[|run| - 1];
    AlwaysCoherent(start, run[..|run| - 1]);
    assert Enabled(before, a) && StateAfter(start, run) == Take(before, a);
    hide Possible, StateAfter, Take, Coherent;
    SuccessStep(before, a, hash, reply);
  }

  lemma SuccessStep(s: State, a: Action, hash: Hash, reply: Reply)
    requires Enabled(s, a) && Coherent(s) && Take(s, a).answers == s.answers + [Success(hash, reply)]
    ensures Decided(Take(s, a), hash, reply) && Take(s, a).phase == Free
  {
    assert Take(s, a).answers[|s.answers|] == Success(hash, reply);
    assert |Take(s, a).answers| == |s.answers| + 1;
  }

  /** The process is not restarted after the first `n` steps. */
  predicate NoRestart(run: seq<Action>, n: nat) {
    forall i :: n <= i < |run| ==> !run[i].Restart?
  }

  /** No statement takes effect late after the first `n` steps. */
  predicate Prompt(run: seq<Action>, n: nat) {
    forall i :: n <= i < |run| ==> !run[i].Late?
  }

  lemma {:induction false} StaysOver(start: State, run: seq<Action>, longer: seq<Action>)
    requires IsNew(start) && Possible(start, run) && run <= longer && Possible(start, longer)
    requires Over(StateAfter(start, run)) && (NoRestart(longer, |run|) || Finished(StateAfter(start, run)))
    ensures Over(StateAfter(start, longer)) && StateAfter(start, longer).runs == StateAfter(start, run).runs
    ensures Finished(StateAfter(start, run)) ==> Finished(StateAfter(start, longer))
  {
    if |run| == |longer| {
      assert run == longer;
    } else {
      var front := longer[..|longer| - 1];
      assert forall i :: 0 <= i < |front| ==> front[i] == longer[i];
      StaysOver(start, run, front);
      AlwaysCoherent(start, front);
      hide Coherent, Over, Take, Enabled;
      OverStep(StateAfter(start, front), longer[|longer| - 1]);
    }
  }

  /** Nothing that may still happen after the first `n` steps changes the outcome. */
  ghost predicate Undisturbed(s: State, longer: seq<Action>, n: nat, hash: Hash, reply: Reply) {
    && (NoRestart(longer, n) || InRow(s, hash, reply))
    && ((NoRestart(longer, n) && s.memory.Some?) || Prompt(longer, n) || NoOtherReply(s, reply))
  }

  lemma {:induction false} StaysDecided(start: State, run: seq<Action>, longer: seq<Action>, hash: Hash, reply: Reply)
    requires IsNew(start) && Possible(start, run) && run <= longer && Possible(start, longer)
    requires Decided(StateAfter(start, run), hash, reply)
    requires Undisturbed(StateAfter(start, run), longer, |run|, hash, reply)
    ensures var s, later := StateAfter(start, run), StateAfter(start, longer);
            && Decided(later, hash, reply) && OnlyRepeats(s, later, hash, reply)
            && (NoRestart(longer, |run|) && s.memory.Some? ==> later.memory.Some?)
            && (NoOtherReply(s, reply) ==> NoOtherReply(later, reply))
            && (InRow(s, hash, reply) && (Prompt(longer, |run|) || NoOtherReply(s, reply)) ==> InRow(later, hash, reply))
  {
    if |run| == |longer| {
      assert run == longer;
    } else {
      var front := longer[..|longer| - 1];
      assert forall i :: 0 <= i < |front| ==> front[i] == longer[i];
      StaysDecided(start, run, front, hash, reply);
      AlwaysCoherent(start, front);
      hide Coherent, Decided, InRow, Take, Enabled, Repeats, Harmless;
      var middle, a := StateAfter(start, front), longer[|longer| - 1];
      StrayHarmless(middle, a, reply);
      DecidedStep(middle, a, hash, reply);
      if NoOtherReply(middle, reply) {
        HarmlessStep(middle, a, hash, reply);
      }
    }
  }

  lemma StrayHarmless(s: State, a: Action, reply: Reply)
    requires Enabled(s, a)
    ensures NoOtherReply(s, reply) && a.Late? ==> Harmless(a.statement, reply)
  {
  }

  /** Once a request was answered with success, the body never runs again in that process, whatever takes effect late. */
  lemma NeverRunsAgain(start: State, run: seq<Action>, longer: seq<Action>, hash: Hash, reply: Reply)
    requires IsNew(start) && Possible(start, run) && JustSucceeded(start, run, hash, reply)
    requires run <= longer && Possible(start, longer) && NoRestart(longer, |run|)
    ensures StateAfter(start, longer).runs == StateAfter(start, run).runs
  {
    SuccessDecides(start, run, hash, reply);
    StaysOver(start, run, longer);
  }

  /** And every answer from then on is the same reply, or a conflict when the request differs; if the reply came from the
      row alone, as long as no statement takes effect late. */
  lemma SuccessIsFinal(start: State, run: seq<Action>, longer: seq<Action>, hash: Hash, reply: Reply)
    requires IsNew(start) && Possible(start, run) && JustSucceeded(start, run, hash, reply)
    requires run <= longer && Possible(start, longer) && NoRestart(longer, |run|)
    requires StateAfter(start, run).memory.Some? || Prompt(longer, |run|)
    ensures OnlyRepeats(StateAfter(start, run), StateAfter(start, longer), hash, reply)
  {
    SuccessDecides(start, run, hash, reply);
    StaysDecided(start, run, longer, hash, reply);
  }

  lemma Extend(start: State, run: seq<Action>, a: Action) returns (longer: seq<Action>)
    requires Possible(start, run) && Enabled(StateAfter(start, run), a)
    ensures longer == run + [a] && Possible(start, longer)
    ensures StateAfter(start, longer) == Take(StateAfter(start, run), a)
  {
    longer := run + [a];
    assert longer[..|longer| - 1] == run;
  }

  /** An outcome that is only in memory is forgotten with the process, and the body can run again. */
  lemma ForgottenRunsAgain(start: State, run: seq<Action>, hash: Hash) returns (longer: seq<Action>)
    requires Possible(start, run) && StateAfter(start, run).phase == Free && !Finished(StateAfter(start, run))
    ensures run <= longer && Possible(start, longer)
    ensures StateAfter(start, longer).runs == StateAfter(start, run).runs + 1
  {
    hide Possible, StateAfter;
    var s := StateAfter(start, run);
    longer := Extend(start, run, Action.Restart(false));
    longer := Extend(start, longer, Pass(if s.row.Some? then s.row.value.lockedUntil + 1 else 0));
    if s.persistent {
      longer := RunBody(start, longer, hash);
    } else {
      longer := Extend(start, longer, Action.Begin(hash));
      longer := Extend(start, longer, Action.Check);
    }
  }

  /** A restarted process answers from the row. */
  lemma AskRow(start: State, run: seq<Action>, hash: Hash) returns (longer: seq<Action>)
    requires Possible(start, run) && Coherent(StateAfter(start, run))
    requires StateAfter(start, run).phase == Free && Finished(StateAfter(start, run))
    ensures run <= longer && Possible(start, longer)
    ensures var s := StateAfter(start, run);
            StateAfter(start, longer).answers
            == s.answers + [if s.row.value.hash != hash then Conflict(hash) else Success(hash, s.row.value.reply.value)]
  {
    var s := StateAfter(start, run);
    hide Possible, StateAfter;
    longer := Extend(start, run, Action.Restart(false));
    longer := Extend(start, longer, Action.Begin(hash));
    longer := Extend(start, longer, Action.Check);
    longer := Extend(start, longer, Action.Claim);
    longer := Extend(start, longer, Action.Look);
  }

  /** If the row holds another outcome, or a late update can still put one there, a later answer differs. */
  lemma OtherAnswer(start: State, run: seq<Action>, hash: Hash, reply: Reply) returns (longer: seq<Action>)
    requires IsNew(start) && Possible(start, run)
    requires StateAfter(start, run).phase == Free && Finished(StateAfter(start, run))
    requires !InRow(StateAfter(start, run), hash, reply) || !NoOtherReply(StateAfter(start, run), reply)
    ensures run <= longer && Possible(start, longer)
    ensures !OnlyRepeats(StateAfter(start, run), StateAfter(start, longer), hash, reply)
  {
    var s := StateAfter(start, run);
    longer := run;
    if InRow(s, hash, reply) {
      var statement :| statement in s.stray && !Harmless(statement, reply);
      longer := Extend(start, longer, Action.Late(statement));
    }
    var middle := StateAfter(start, longer);
    AlwaysCoherent(start, longer);
    longer := AskRow(start, longer, hash);
    var answers := StateAfter(start, longer).answers;
    assert middle.answers == s.answers;
    assert !Repeats(answers[|s.answers|], hash, reply);
  }

  /** After a success: over restarts, and whatever takes effect late, the body never runs again exactly if the row holds
      a reply; and every answer repeats the reply exactly if the row holds this one and no late update can replace it. */
  lemma FinalOverRestartsExactly(start: State, run: seq<Action>, hash: Hash, reply: Reply)
    requires IsNew(start) && Possible(start, run) && JustSucceeded(start, run, hash, reply)
    ensures (forall longer :: run <= longer && Possible(start, longer) ==>
               StateAfter(start, longer).runs == StateAfter(start, run).runs)
            <==> Finished(StateAfter(start, run))
    ensures (forall longer :: run <= longer && Possible(start, longer) ==>
               OnlyRepeats(StateAfter(start, run), StateAfter(start, longer), hash, reply))
            <==> InRow(StateAfter(start, run), hash, reply) && NoOtherReply(StateAfter(start, run), reply)
  {
    SuccessDecides(start, run, hash, reply);
    RunsFinalExactly(start, run, hash, reply);
    AnswersFinalExactly(start, run, hash, reply);
  }

  lemma RunsFinalExactly(start: State, run: seq<Action>, hash: Hash, reply: Reply)
    requires IsNew(start) && Possible(start, run)
    requires Decided(StateAfter(start, run), hash, reply) && StateAfter(start, run).phase == Free
    ensures (forall longer :: run <= longer && Possible(start, longer) ==>
               StateAfter(start, longer).runs == StateAfter(start, run).runs)
            <==> Finished(StateAfter(start, run))
  {
    var s := StateAfter(start, run);
    if Finished(s) {
      forall longer | run <= longer && Possible(start, longer)
        ensures StateAfter(start, longer).runs == s.runs
      {
        StaysOver(start, run, longer);
      }
    } else {
      var longer := ForgottenRunsAgain(start, run, hash);
      assert StateAfter(start, longer).runs != s.runs;
    }
  }

  lemma AnswersFinalExactly(start: State, run: seq<Action>, hash: Hash, reply: Reply)
    requires IsNew(start) && Possible(start, run)
    requires Decided(StateAfter(start, run), hash, reply) && StateAfter(start, run).phase == Free
    ensures (forall longer :: run <= longer && Possible(start, longer) ==>
               OnlyRepeats(StateAfter(start, run), StateAfter(start, longer), hash, reply))
            <==> InRow(StateAfter(start, run), hash, reply) && NoOtherReply(StateAfter(start, run), reply)
  {
    var s := StateAfter(start, run);
    if InRow(s, hash, reply) && NoOtherReply(s, reply) {
      forall longer | run <= longer && Possible(start, longer)
        ensures OnlyRepeats(s, StateAfter(start, longer), hash, reply)
      {
        StaysDecided(start, run, longer, hash, reply);
      }
    } else {
      var longer;
      if Finished(s) {
        longer := OtherAnswer(start, run, hash, reply);
      } else {
        longer := ForgottenRunsAgain(start, run, hash);
      }
      assert !OnlyRepeats(s, StateAfter(start, longer), hash, reply);
    }
  }

  // ---------------------------------------------------------------- runs in which an outcome is not final

  lemma NothingDone(start: State)
    ensures Possible(start, []) && StateAfter(start, []) == start
  {
  }

  /** A request whose key nobody holds gets to run its body. */
  lemma RunBody(start: State, run: seq<Action>, hash: Hash) returns (longer: seq<Action>)
    requires Possible(start, run)
    requires var s := StateAfter(start, run); s.persistent && s.phase == Free && s.memory.None? && Claimable(s)
    ensures run <= longer && Possible(start, longer)
    ensures var s := StateAfter(start, run);
            StateAfter(start, longer) == Claimed(s, hash).(phase := Running(hash), runs := s.runs + 1)
  {
    hide Possible, StateAfter, Claimed, Claimable;
    longer := Extend(start, run, Action.Begin(hash));
    longer := Extend(start, longer, Action.Check);
    longer := ClaimNow(start, longer, hash);
  }

  lemma ClaimNow(start: State, run: seq<Action>, hash: Hash) returns (longer: seq<Action>)
    requires Possible(start, run) && StateAfter(start, run).phase == Claiming(hash)
    requires Claimable(StateAfter(start, run).(phase := Free))
    ensures run <= longer && Possible(start, longer)
    ensures var s := StateAfter(start, run);
            StateAfter(start, longer) == Claimed(s.(phase := Free), hash).(phase := Running(hash), runs := s.runs + 1)
  {
    hide Possible, StateAfter;
    longer := Extend(start, run, Action.Claim);
  }

  /** A request given up before its row was updated. */
  lemma GivenUp(start: State, hash: Hash, reply: Reply) returns (run: seq<Action>)
    requires IsNew(start) && start.persistent
    ensures Possible(start, run)
    ensures var s := StateAfter(start, run);
            && s.persistent && s.phase == Free && s.memory == Some(Entry(hash, reply)) && s.runs == 1
            && s.row.Some? && s.row.value.reply.None? && s.stray == multiset{UpdateRow(reply)}
  {
    hide Possible, StateAfter;
    NothingDone(start);
    run := RunBody(start, [], hash);
    run := Extend(start, run, Action.Finish(Some(reply)));
    run := Extend(start, run, Action.Abandon(false));
  }

  /** Repeated, the request is answered with success from memory alone. */
  lemma SuccessOnlyInMemory(start: State, hash: Hash, reply: Reply) returns (run: seq<Action>)
    requires IsNew(start) && start.persistent
    ensures Possible(start, run) && JustSucceeded(start, run, hash, reply)
    ensures !Finished(StateAfter(start, run)) && StateAfter(start, run).runs == 1
  {
    var front := GivenUp(start, hash, reply);
    front := Extend(start, front, Action.Begin(hash));
    run := Extend(start, front, Action.Check);
    assert run[..|run| - 1] == front;
  }

  /** So after a success the body of a request can run a second time. */
  lemma RunsTwice(start: State, hash: Hash, reply: Reply) returns (run: seq<Action>, longer: seq<Action>)
    requires IsNew(start) && start.persistent
    ensures Possible(start, run) && JustSucceeded(start, run, hash, reply)
    ensures run <= longer && Possible(start, longer) && StateAfter(start, longer).runs == 2
  {
    run := SuccessOnlyInMemory(start, hash, reply);
    SuccessDecides(start, run, hash, reply);
    longer := ForgottenRunsAgain(start, run, hash);
  }

  /** The second run's own success is recorded while the first run's update is still under way. */
  lemma SecondSuccess(start: State, hash: Hash, first: Reply, second: Reply) returns (run: seq<Action>)
    requires IsNew(start) && start.persistent
    ensures Possible(start, run) && JustSucceeded(start, run, hash, second)
    ensures var s := StateAfter(start, run);
            s.phase == Free && InRow(s, hash, second) && s.stray == multiset{UpdateRow(first)}
  {
    var front := GivenUp(start, hash, first);
    front := RunOnceMore(start, front, hash, first);
    hide Possible, StateAfter;
    front := Extend(start, front, Action.Finish(Some(second)));
    run := LastStep(start, front, hash, second);
  }

  /** After a restart and the timeout of the claim, the body runs again. */
  lemma RunOnceMore(start: State, run: seq<Action>, hash: Hash, first: Reply) returns (longer: seq<Action>)
    requires Possible(start, run)
    requires var s := StateAfter(start, run);
             && s.persistent && s.phase == Free && s.row.Some? && s.row.value.reply.None?
             && s.stray == multiset{UpdateRow(first)}
    ensures Possible(start, longer)
    ensures var s := StateAfter(start, longer);
            && s.persistent && s.phase == Running(hash) && s.row.Some? && s.row.value.hash == hash
            && s.stray == multiset{UpdateRow(first)}
  {
    hide Possible, StateAfter;
    longer := Extend(start, run, Action.Restart(false));
    longer := Extend(start, longer, Pass(StateAfter(start, run).row.value.lockedUntil + 1));
    longer := RunBody(start, longer, hash);
  }

  lemma LastStep(start: State, front: seq<Action>, hash: Hash, reply: Reply) returns (run: seq<Action>)
    requires Possible(start, front) && StateAfter(start, front).phase == Recording(hash, reply)
    ensures run == front + [Action.Recorded] && Possible(start, run) && JustSucceeded(start, run, hash, reply)
    ensures StateAfter(start, run) == Take(StateAfter(start, front), Action.Recorded)
  {
    run := Extend(start, front, Action.Recorded);
    assert run[..|run| - 1] == front;
  }

  /** So after a success with one reply a later request can be answered with another. */
  lemma ReplyReplaced(start: State, hash: Hash, first: Reply, second: Reply)
      returns (run: seq<Action>, longer: seq<Action>)
    requires IsNew(start) && start.persistent
    ensures Possible(start, run) && JustSucceeded(start, run, hash, second)
    ensures run <= longer && Possible(start, longer)
    ensures StateAfter(start, longer).answers == StateAfter(start, run).answers + [Success(hash, first)]
  {
    run := SecondSuccess(start, hash, first, second);
    var late := Extend(start, run, Action.Late(UpdateRow(first)));
    AlwaysCoherent(start, late);
    longer := AskRow(start, late, hash);
  }
}
