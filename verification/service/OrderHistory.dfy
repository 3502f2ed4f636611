/** What the record of an order says about the run so far: which answers of the railway and the payment provider it goes
    back to, told by the steps of the run alone. */
module OrderHistory {
  import opened Machine
  import opened Orders

  // ---------------------------------------------------------------- what has happened

  /** What has happened in a run: the railway confirmed a cancellation, a checkout session was created, the price was fixed
      after the payment, the sale went through or failed, sold tickets were found. */
  datatype Past = Past(cancelled: bool, agreed: bool, paid: bool, sold: bool, failed: bool, found: bool)

  /** The handler of a cancellation receives its answer. */
  predicate Cancels(s: State, a: Action) {
    a.Quoted? && s.phase.Calling? && s.phase.op == CancelOrder
  }

  ghost predicate SomeCancels(start: State, run: seq<Action>)
    requires Possible(start, run)
  {
    exists n :: 0 <= n < |run| && CancelsAt(start, run, n)
  }

  ghost predicate CancelsAt(start: State, run: seq<Action>, n: nat) {
    n < |run| && Possible(start, run[..n]) && Cancels(StateAfter(start, run[..n]), run[n])
  }

  ghost predicate SomeSession(run: seq<Action>) {
    exists n :: 0 <= n < |run| && run[n].SessionCreated?
  }

  ghost function PastOf(start: State, run: seq<Action>): Past
    requires Possible(start, run)
  {
    Past(SomeCancels(start, run), SomeSession(run), Fixed in run, Sold(true) in run, Sold(false) in run, Found(true) in run)
  }

  /** One more step. */
  function Later(p: Past, s: State, a: Action): Past {
    Past(p.cancelled || Cancels(s, a), p.agreed || a.SessionCreated?, p.paid || a == Fixed, p.sold || a == Sold(true),
         p.failed || a == Sold(false), p.found || a == Found(true))
  }

  lemma CancelsGrow(start: State, run: seq<Action>)
    requires Possible(start, run) && |run| > 0
    ensures var front := run[..|run| - 1];
            SomeCancels(start, run) <==> SomeCancels(start, front) || Cancels(StateAfter(start, front), run[|run| - 1])
  {
    hide StateAfter, CancelsAt;
    var front := run[..|run| - 1];
    forall n | 0 <= n < |front|
      ensures CancelsAt(start, run, n) <==> CancelsAt(start, front, n)
    {
      CancelsEarlier(start, run, n);
    }
    CancelsLast(start, run);
  }

  lemma CancelsEarlier(start: State, run: seq<Action>, n: nat)
    requires n < |run| - 1
    ensures CancelsAt(start, run, n) <==> CancelsAt(start, run[..|run| - 1], n)
  {
    assert run[..|run| - 1][..n] == run[..n];
    hide StateAfter, Possible, Cancels;
  }

  lemma CancelsLast(start: State, run: seq<Action>)
    requires Possible(start, run) && |run| > 0
    ensures CancelsAt(start, run, |run| - 1) <==> Cancels(StateAfter(start, run[..|run| - 1]), run[|run| - 1])
  {
    hide StateAfter, Cancels;
  }

  lemma SessionsGrow(front: seq<Action>, last: Action)
    ensures SomeSession(front + [last]) <==> SomeSession(front) || last.SessionCreated?
  {
    var run := front + [last];
    assert run[|front|] == last && forall n :: 0 <= n < |front| ==> run[n] == front[n];
  }

  lemma PastGrows(start: State, run: seq<Action>)
    requires Possible(start, run) && |run| > 0
    ensures var front := run[..|run| - 1];
            PastOf(start, run) == Later(PastOf(start, front), StateAfter(start, front), run[|run| - 1])
  {
    hide StateAfter, Possible, SomeCancels, SomeSession, Cancels;
    var front, last := run[..|run| - 1], run[|run| - 1];
    assert run == front + [last];
    CancelsGrow(start, run);
    SessionsGrow(front, last);
  }

  lemma NothingPast(start: State)
    ensures PastOf(start, []) == Past(false, false, false, false, false, false)
  {
  }

  // ---------------------------------------------------------------- every record goes back to its steps

  /** What must have happened before a record could have this status. */
  predicate Earned(status: Status, p: Past) {
    match status
    case Draft => true
    case Cancelled => p.cancelled
    case CheckoutPending => p.agreed
    case Paid => p.paid
    case IssuanceFailed => p.failed
    case Issued => p.sold || p.found
  }

  /** Wherever a record of the order is, in memory, in the row, on its way there or in a handler's hands. */
  ghost predicate OnRecord(s: State, order: Order) {
    s.memory == Some(order) || s.row == Some(order) || order in s.stray || Carried(s.phase) == Some(order)
  }

  ghost predicate AllEarned(s: State, p: Past) {
    forall o :: OnRecord(s, o) ==> Earned(o.status, p)
  }

  /** A step records only what was on record, or what a handler makes of the order it holds. */
  lemma RecordsMoved(s: State, a: Action, order: Order)
    requires Enabled(s, a) && OnRecord(Take(s, a), order)
    ensures OnRecord(s, order) || (Take(s, a).memory == Some(order) && Carried(s.phase).Some?)
  {
    StraysCarried(s, a);
    RowCarried(s, a);
    HeldMoved(s, a);
    hide Take, Enabled;
  }

  lemma HeldMoved(s: State, a: Action)
    requires Enabled(s, a)
    ensures var after := Take(s, a);
            && (Carried(after.phase).Some? ==> Carried(after.phase) == Carried(s.phase) || Carried(after.phase) == after.memory
                                               || Carried(after.phase) == Current(s))
            && (after.memory.Some? ==> after.memory == s.memory || Carried(s.phase).Some?)
  {
    hide Edited, Advanced;
  }

  /** A handler makes of an order only what its step has earned. */
  lemma MadeEarned(s: State, a: Action, p: Past)
    requires Enabled(s, a) && Carried(s.phase).Some? && Earned(s.phase.order.status, p)
    requires s.memory.Some? ==> Earned(s.memory.value.status, p)
    ensures Take(s, a).memory.Some? ==> Earned(Take(s, a).memory.value.status, Later(p, s, a))
  {
  }

  lemma EarnedStays(status: Status, p: Past, s: State, a: Action)
    requires Earned(status, p)
    ensures Earned(status, Later(p, s, a))
  {
  }

  lemma EarnedStep(s: State, a: Action, p: Past)
    requires Enabled(s, a) && AllEarned(s, p)
    ensures AllEarned(Take(s, a), Later(p, s, a))
  {
    hide Take, Enabled, Earned, Later;
    forall o | OnRecord(Take(s, a), o)
      ensures Earned(o.status, Later(p, s, a))
    {
      RecordsMoved(s, a, o);
      if OnRecord(s, o) {
        EarnedStays(o.status, p, s, a);
      } else {
        assert OnRecord(s, s.phase.order);
        assert s.memory.Some? ==> OnRecord(s, s.memory.value);
        MadeEarned(s, a, p);
      }
    }
  }

  /** Whatever is on record anywhere has been earned, late updates and restarts included: an order is recorded as issued
      only after the railway sold or found its tickets, as failed only after the sale failed, and so on. */
  lemma {:induction false} RecordsEarned(start: State, run: seq<Action>)
    requires IsCreated(start) && Possible(start, run)
    ensures AllEarned(StateAfter(start, run), PastOf(start, run))
  {
    if |run| > 0 {
      RecordsEarned(start, run[..|run| - 1]);
      PastGrows(start, run);
      hide AllEarned, Take, Enabled, PastOf;
      EarnedStep(StateAfter(start, run[..|run| - 1]), run[|run| - 1], PastOf(start, run[..|run| - 1]));
    } else {
      NothingPast(start);
    }
  }

  // ---------------------------------------------------------------- what memory says in one process

  predicate NoRestart(run: seq<Action>) {
    forall i :: 0 <= i < |run| ==> !run[i].Restart?
  }

  /** The status that the past calls for. */
  predicate StatusTells(status: Status, p: Past) {
    && (status == Issued <==> p.sold || p.found)
    && (status == IssuanceFailed <==> p.failed && !p.found)
    && (status == Paid <==> p.paid && !p.sold && !p.failed && !p.found)
    && (status == CheckoutPending <==> p.agreed && !p.paid)
    && (status == Cancelled <==> p.cancelled)
  }

  /** The handler holds the order that is in memory. */
  predicate HoldsMemory(s: State) {
    && s.memory.Some?
    && (Carried(s.phase).Some? ==> s.memory == Carried(s.phase))
    && match s.phase
       case Calling(op, o) => o.status == Draft
       case Verifying(o) => o.status == CheckoutPending
       case Fixing(o) => o.status == CheckoutPending
       case Saving(o, next) => next == Sell ==> o.status == Paid
       case Selling(o) => o.status == Paid
       case Reconciling(o) => o.status == Paid || o.status == IssuanceFailed
       case _ => true
  }

  lemma StatusAsked(s: State, a: Action, p: Past)
    requires a.Begin? || a.Read? || a.Quoted? || a.Abandon? || a.Late?
    requires Enabled(s, a) && HoldsMemory(s) && StatusTells(s.memory.value.status, p)
    ensures HoldsMemory(Take(s, a)) && StatusTells(Take(s, a).memory.value.status, Later(p, s, a))
  {
  }

  lemma StatusPaid(s: State, a: Action, p: Past)
    requires a.SessionCreated? || a.Settled? || a.Fixed? || a.Written?
    requires Enabled(s, a) && HoldsMemory(s) && StatusTells(s.memory.value.status, p)
    ensures HoldsMemory(Take(s, a)) && StatusTells(Take(s, a).memory.value.status, Later(p, s, a))
  {
  }

  lemma StatusIssued(s: State, a: Action, p: Past)
    requires a.Sold? || a.Found?
    requires Enabled(s, a) && HoldsMemory(s) && StatusTells(s.memory.value.status, p)
    ensures HoldsMemory(Take(s, a)) && StatusTells(Take(s, a).memory.value.status, Later(p, s, a))
  {
  }

  lemma StatusStep(s: State, a: Action, p: Past)
    requires Enabled(s, a) && !a.Restart? && HoldsMemory(s) && StatusTells(s.memory.value.status, p)
    ensures HoldsMemory(Take(s, a)) && StatusTells(Take(s, a).memory.value.status, Later(p, s, a))
  {
    match a
    case Begin(_) => StatusAsked(s, a, p);
    case Read => StatusAsked(s, a, p);
    case Quoted(_) => StatusAsked(s, a, p);
    case Abandon(_) => StatusAsked(s, a, p);
    case Late(_) => StatusAsked(s, a, p);
    case SessionCreated(_) => StatusPaid(s, a, p);
    case Settled(_) => StatusPaid(s, a, p);
    case Fixed => StatusPaid(s, a, p);
    case Written => StatusPaid(s, a, p);
    case Sold(_) => StatusIssued(s, a, p);
    case Found(_) => StatusIssued(s, a, p);
  }

  /** As long as the process lives, the order in memory has exactly the status its past calls for: issued if and only if
      the railway has sold or found the tickets, failed if and only if the sale failed and nothing was found since, paid if
      and only if the price was fixed after payment and neither has happened, and so on. */
  lemma {:induction false} StatusExact(start: State, run: seq<Action>)
    requires IsCreated(start) && Possible(start, run) && NoRestart(run)
    ensures HoldsMemory(StateAfter(start, run))
    ensures StatusTells(StateAfter(start, run).memory.value.status, PastOf(start, run))
  {
    if |run| > 0 {
      StatusExact(start, run[..|run| - 1]);
      PastGrows(start, run);
      hide HoldsMemory, StatusTells, Take, Enabled, PastOf, Later;
      StatusStep(StateAfter(start, run[..|run| - 1]), run[|run| - 1], PastOf(start, run[..|run| - 1]));
    } else {
      NothingPast(start);
    }
  }

  // ---------------------------------------------------------------- the terms on record

  /** The last of the values that the steps of the run have set, if any has. */
  ghost function LastSet<V>(start: State, run: seq<Action>, sets: (State, Action) -> Option<V>): Option<V>
    requires Possible(start, run)
  {
    if |run| == 0 then None
    else
      var front := run[..|run| - 1];
      var last := sets(StateAfter(start, front), run[|run| - 1]);
      if last.Some? then last else LastSet(start, front, sets)
  }

  /** A refreshed quote sets the amount; so does a selected offer that has one. */
  function AmountSet(s: State, a: Action): Option<Option<Hellers>> {
    if a.Quoted? && s.phase.Calling? && (s.phase.op == RefreshQuote || (s.phase.op.SelectOffer? && a.amount.Some?))
    then Some(a.amount) else None
  }

  function OfferSet(s: State, a: Action): Option<Option<int>> {
    if a.Quoted? && s.phase.Calling? && s.phase.op.SelectOffer? then Some(Some(s.phase.op.offerType)) else None
  }

  function CustomerSet(s: State, a: Action): Option<Option<Customer>> {
    if a.SessionCreated? && s.phase.Calling? && s.phase.op.Checkout? then Some(Some(s.phase.op.customer)) else None
  }

  function SessionSet(s: State, a: Action): Option<Option<Session>> {
    if a.SessionCreated? then Some(Some(a.session)) else None
  }

  /** The steps that raise the version: an edit, a checkout, and issued tickets. */
  predicate Raises(s: State, a: Action) {
    || (a.Quoted? && s.phase.Calling? && Edits(s.phase.op)) || a.SessionCreated? || a == Sold(true) || a == Found(true)
  }

  predicate Edits(op: Operation) {
    op == RefreshQuote || op.SelectOffer? || op == CancelOrder
  }

  ghost function RaisesIn(start: State, run: seq<Action>): nat
    requires Possible(start, run)
  {
    if |run| == 0 then 0
    else
      var front := run[..|run| - 1];
      RaisesIn(start, front) + if Raises(StateAfter(start, front), run[|run| - 1]) then 1 else 0
  }

  /** What a step that sets values makes of the terms. */
  predicate TermsFollow(s: State, a: Action, before: Order, after: Order) {
    && after.amount == AmountSet(s, a).GetOr(before.amount)
    && after.offerType == OfferSet(s, a).GetOr(before.offerType)
    && after.customer == CustomerSet(s, a).GetOr(before.customer)
    && after.session == SessionSet(s, a).GetOr(before.session)
    && after.version == before.version + if Raises(s, a) then 1 else 0
  }

  lemma TermsAnswered(s: State, a: Action)
    requires a.Quoted? || a.SessionCreated?
    requires Enabled(s, a) && HoldsMemory(s)
    ensures Take(s, a).memory.Some? && TermsFollow(s, a, s.memory.value, Take(s, a).memory.value)
  {
  }

  lemma TermsKept(s: State, a: Action)
    requires a.Fixed? || a.Sold? || a.Found?
    requires Enabled(s, a) && HoldsMemory(s)
    ensures Take(s, a).memory.Some? && TermsFollow(s, a, s.memory.value, Take(s, a).memory.value)
  {
  }

  lemma MemoryStays(s: State, a: Action)
    requires a.Begin? || a.Read? || a.Settled? || a.Written? || a.Abandon? || a.Late?
    requires Enabled(s, a)
    ensures Take(s, a).memory == s.memory
  {
    hide Branch;
  }

  lemma TermsStep(s: State, a: Action)
    requires Enabled(s, a) && !a.Restart? && HoldsMemory(s)
    ensures Take(s, a).memory.Some? && TermsFollow(s, a, s.memory.value, Take(s, a).memory.value)
  {
    hide Take, TermsFollow, Enabled;
    if a.Quoted? || a.SessionCreated? {
      TermsAnswered(s, a);
    } else if a.Fixed? || a.Sold? || a.Found? {
      TermsKept(s, a);
    } else {
      MemoryStays(s, a);
      NothingSet(s, a);
    }
  }

  lemma NothingSet(s: State, a: Action)
    requires a.Begin? || a.Read? || a.Settled? || a.Written? || a.Abandon? || a.Late?
    requires s.memory.Some?
    ensures TermsFollow(s, a, s.memory.value, s.memory.value)
  {
  }

  /** As long as the process lives, the order in memory carries the amount and the offer last answered, the customer and
      the session of its checkout, and a version for every change of these and for being issued. */
  lemma {:induction false} TermsExact(start: State, run: seq<Action>)
    requires IsCreated(start) && Possible(start, run) && NoRestart(run)
    ensures StateAfter(start, run).memory.Some?
    ensures var first, now := start.memory.value, StateAfter(start, run).memory.value;
            && now.amount == LastSet(start, run, AmountSet).GetOr(first.amount)
            && now.offerType == LastSet(start, run, OfferSet).GetOr(first.offerType)
            && now.customer == LastSet(start, run, CustomerSet).GetOr(first.customer)
            && now.session == LastSet(start, run, SessionSet).GetOr(first.session)
            && now.version == first.version + RaisesIn(start, run)
  {
    if |run| > 0 {
      var front := run[..|run| - 1];
      TermsExact(start, front);
      StatusExact(start, front);
      hide HoldsMemory, Take, Enabled, AmountSet, OfferSet, CustomerSet, SessionSet, Raises;
      TermsStep(StateAfter(start, front), run[|run| - 1]);
    }
  }

  // ---------------------------------------------------------------- issued for good

  /** An issued order stays issued over everything that may still happen promptly, restarts included, exactly if the
      database has it as issued. */
  lemma IssuedForGoodExactly(start: State, run: seq<Action>)
    requires IsCreated(start) && Possible(start, run) && Prompt(run) && HasStatus(StateAfter(start, run), Issued)
    ensures (forall longer :: run <= longer && Possible(start, longer) && Prompt(longer) ==>
               HasStatus(StateAfter(start, longer), Issued))
            <==> StateAfter(start, run).row.Some? && StateAfter(start, run).row.value.status == Issued
  {
    var s := StateAfter(start, run);
    assert Sound(start);
    hide StateAfter, Possible, Prompt, Sound;
    if s.row.Some? && s.row.value.status == Issued {
      forall longer | run <= longer && Possible(start, longer) && Prompt(longer)
        ensures HasStatus(StateAfter(start, longer), Issued)
      {
        StaysIssued(start, run, longer);
      }
    } else {
      var longer := Extend(start, run, Restart(false));
      assert !HasStatus(StateAfter(start, longer), Issued);
    }
  }

  predicate HasStatus(s: State, status: Status) {
    Current(s).Some? && Current(s).value.status == status
  }

  lemma StaysIssued(start: State, run: seq<Action>, longer: seq<Action>)
    requires Sound(start) && Possible(start, run) && run <= longer && Possible(start, longer) && Prompt(longer)
    requires StateAfter(start, run).row.Some? && StateAfter(start, run).row.value.status == Issued
    ensures HasStatus(StateAfter(start, longer), Issued)
  {
    hide StateAfter, Possible, Sound;
    assert longer[..|run|] == run;
    assert forall i :: 0 <= i < |run| ==> run[i] == longer[i];
    PersistentStays(start, longer);
    PersistentStays(start, run);
    AlwaysSound(start, run);
    AlwaysSound(start, longer);
    TermsStand(start, longer, |run|);
    RowIssuedIsCurrent(StateAfter(start, run), StateAfter(start, longer));
  }

  lemma RowIssuedIsCurrent(s: State, later: State)
    requires Sound(s) && Sound(later) && later.persistent == s.persistent && StoredFollows(s, later)
    requires s.row.Some? && s.row.value.status == Issued
    ensures HasStatus(later, Issued)
  {
  }

  lemma {:induction false} PersistentStays(start: State, run: seq<Action>)
    requires Possible(start, run)
    ensures StateAfter(start, run).persistent == start.persistent
  {
    if |run| > 0 {
      PersistentStays(start, run[..|run| - 1]);
    }
  }

  // ---------------------------------------------------------------- what the row says

  /** When the handler goes on after saving, the row says what memory says. */
  lemma WrittenMatches(start: State, run: seq<Action>)
    requires IsCreated(start) && Possible(start, run) && |run| > 0 && run[|run| - 1] == Written
    ensures var s := StateAfter(start, run); s.memory.Some? && s.row == if s.persistent then s.memory else None
  {
    var front := run[..|run| - 1];
    AlwaysSolid(start, front);
    assert PhaseSolid(StateAfter(start, front));
  }

  predicate NothingGivenUp(run: seq<Action>) {
    forall i :: 0 <= i < |run| ==> !run[i].Restart? && !run[i].Abandon?
  }

  lemma MatchesStep(s: State, a: Action)
    requires Enabled(s, a) && !a.Restart? && !a.Abandon? && s.stray == multiset{} && HoldsMemory(s)
    requires !s.phase.Saving? && s.persistent ==> s.row == s.memory
    ensures var after := Take(s, a);
            after.stray == multiset{} && (!after.phase.Saving? && after.persistent ==> after.row == after.memory)
  {
    hide Edited, Branch;
  }

  /** While no request is given up, the row lags behind memory only during a save. */
  lemma {:induction false} RowMatches(start: State, run: seq<Action>)
    requires IsCreated(start) && Possible(start, run) && NothingGivenUp(run)
    ensures var s := StateAfter(start, run);
            s.stray == multiset{} && (!s.phase.Saving? && s.persistent ==> s.row == s.memory)
  {
    if |run| > 0 {
      var front := run[..|run| - 1];
      RowMatches(start, front);
      StatusExact(start, front);
      hide HoldsMemory, Take, Enabled;
      MatchesStep(StateAfter(start, front), run[|run| - 1]);
    }
  }

  // ---------------------------------------------------------------- what a sale goes back to

  /** The payment provider creates the session for the order's amount. */
  predicate Agrees(s: State, a: Action, terms: (Session, Hellers)) {
    a == SessionCreated(terms.0) && s.phase.Calling? && s.phase.order.amount == Some(terms.1)
  }

  /** The payment provider finds the order's session settled, with its amount. */
  predicate Settles(s: State, a: Action, terms: (Session, Hellers)) {
    a == Settled(true) && s.phase.Verifying? && s.phase.order.session == Some(terms.0) && s.phase.order.amount == Some(terms.1)
  }

  ghost predicate AgreedIn(start: State, run: seq<Action>, terms: (Session, Hellers))
    requires Possible(start, run)
  {
    |run| > 0
    && var front := run[..|run| - 1];
       AgreedIn(start, front, terms) || Agrees(StateAfter(start, front), run[|run| - 1], terms)
  }

  ghost predicate SettledIn(start: State, run: seq<Action>, terms: (Session, Hellers))
    requires Possible(start, run)
  {
    |run| > 0
    && var front := run[..|run| - 1];
       SettledIn(start, front, terms) || Settles(StateAfter(start, front), run[|run| - 1], terms)
  }

  lemma LogStep(s: State, a: Action, terms: (Session, Hellers))
    requires Enabled(s, a)
    ensures terms in Take(s, a).log.checkouts <==> terms in s.log.checkouts || Agrees(s, a, terms)
    ensures terms in Take(s, a).log.settled <==> terms in s.log.settled || Settles(s, a, terms)
  {
    hide Edited, Branch;
  }

  lemma {:induction false} LogExact(start: State, run: seq<Action>, terms: (Session, Hellers))
    requires IsCreated(start) && Possible(start, run)
    ensures terms in StateAfter(start, run).log.checkouts <==> AgreedIn(start, run, terms)
    ensures terms in StateAfter(start, run).log.settled <==> SettledIn(start, run, terms)
  {
    if |run| > 0 {
      LogExact(start, run[..|run| - 1], terms);
      hide Take, Enabled, Agrees, Settles;
      LogStep(StateAfter(start, run[..|run| - 1]), run[|run| - 1], terms);
    }
  }

  /** Every sale goes back to a session that the payment provider created for this amount and has found settled, in this
      very run, whatever else happened. */
  lemma SalesGoBack(start: State, run: seq<Action>, terms: (Session, Hellers))
    requires IsCreated(start) && Possible(start, run) && terms in StateAfter(start, run).log.sales
    ensures AgreedIn(start, run, terms) && SettledIn(start, run, terms)
  {
    SalesAreSettled(start, run);
    LogExact(start, run, terms);
  }

  // ---------------------------------------------------------------- what a handler goes on to do

  /** After reading the order, a handler calls the railway or the payment provider exactly for a draft, and for a checkout
      only of a priced one; it verifies exactly a pending checkout and reconciles exactly a payment without tickets. */
  lemma HandlersGoOn(start: State, run: seq<Action>)
    requires IsCreated(start) && Possible(start, run) && StateAfter(start, run).phase.Reading?
    ensures var s, next := StateAfter(start, run), Take(StateAfter(start, run), Read).phase;
            if Current(s).None? then next == Free
            else
              var op, o := s.phase.op, Current(s).value;
              && (next == Calling(op, o) <==> op != Complete && o.status == Draft && (op.Checkout? ==> o.amount.Some?))
              && (next == Verifying(o) <==> op == Complete && o.status == CheckoutPending)
              && (next == Reconciling(o) <==> op == Complete && (o.status == Paid || o.status == IssuanceFailed))
              && (next == Free || next == Calling(op, o) || next == Verifying(o) || next == Reconciling(o))
  {
    AlwaysSolid(start, run);
    var s := StateAfter(start, run);
    assert Founded(s.log, Current(s));
    hide StateAfter, Possible, Solid;
  }

  /** A payment without tickets can always be reconciled. */
  lemma PaidCanBeIssued(start: State, run: seq<Action>) returns (longer: seq<Action>)
    requires Possible(start, run) && StateAfter(start, run).phase == Free
    requires HasStatus(StateAfter(start, run), Paid) || HasStatus(StateAfter(start, run), IssuanceFailed)
    ensures run <= longer && Possible(start, longer) && HasStatus(StateAfter(start, longer), Issued)
    ensures StateAfter(start, longer).log == StateAfter(start, run).log
  {
    hide StateAfter, Possible;
    longer := Extend(start, run, Begin(Complete));
    longer := Extend(start, longer, Read);
    longer := Extend(start, longer, Found(true));
  }

  /** A draft can always be cancelled. */
  lemma DraftCanBeCancelled(start: State, run: seq<Action>) returns (longer: seq<Action>)
    requires Possible(start, run) && StateAfter(start, run).phase == Free && HasStatus(StateAfter(start, run), Draft)
    ensures run <= longer && Possible(start, longer) && HasStatus(StateAfter(start, longer), Cancelled)
  {
    hide StateAfter, Possible;
    longer := Extend(start, run, Begin(CancelOrder));
    longer := Extend(start, longer, Read);
    longer := Extend(start, longer, Quoted(None));
  }
}
