/** The life of one ticketing order: request handlers that run between await points under the order's mutation guard,
    the record in memory, its row in the database, requests given up midway and restarts of the process. */
module Orders {
  import opened Machine

  datatype Status = Draft | CheckoutPending | Cancelled | Paid | IssuanceFailed | Issued

  type Session = int
  type Customer = int
  type Hellers = int

  datatype Order = Order(
    status: Status,
    offerType: Option<int>,
    amount: Option<Hellers>,
    customer: Option<Customer>,
    session: Option<Session>,
    version: nat)

  datatype Operation =
    | RefreshQuote
    | SelectOffer(offerType: int)
    | AddOn
    | CancelOrder
    | Checkout(customer: Customer)
    | Complete

  /** What follows once a saved order has reached the database. */
  datatype Next = Leave | Sell

  /** Where the handler that holds the guard is waiting. */
  datatype Phase =
    | Free
    | Reading(op: Operation)
    | Calling(op: Operation, order: Order)
    | Verifying(order: Order)
    | Fixing(order: Order)
    | Saving(order: Order, next: Next)
    | Selling(order: Order)
    | Reconciling(order: Order)

  /** What the payment provider and the railway have seen: checkout sessions created, with their amounts; sessions
      found settled, with the amounts asked about; and the session and amount behind each sale. */
  datatype Log = Log(checkouts: set<(Session, Hellers)>, settled: set<(Session, Hellers)>, sales: seq<(Session, Hellers)>)

  /** `stray` holds the row updates whose caller gave up before they took effect; the database may still execute them. */
  datatype State = State(
    persistent: bool,
    memory: Option<Order>,
    row: Option<Order>,
    phase: Phase,
    stray: multiset<Order>,
    log: Log)

  datatype Action =
    | Begin(op: Operation)
    | Read
    | Quoted(amount: Option<Hellers>)
    | SessionCreated(session: Session)
    | Settled(accepted: bool)
    | Fixed
    | Written
    | Sold(issued: bool)
    | Found(tickets: bool)
    | Abandon(written: bool)
    | Restart(written: bool)
    | Late(order: Order)

  /** `owned_order`: memory first. */
  function Current(s: State): Option<Order> {
    if s.memory.Some? then s.memory else s.row
  }

  /** A created order: in memory, and in the database when there is one. */
  predicate IsCreated(s: State) {
    && s.memory.Some? && s.memory.value.status == Draft && s.memory.value.session == None
    && s.row == (if s.persistent then s.memory else None)
    && s.phase == Free && s.stray == multiset{} && s.log == Log({}, {}, [])
  }

  predicate Enabled(s: State, a: Action) {
    match a
    case Begin(op) => s.phase == Free
    case Read => s.phase.Reading?
    case Quoted(amount) => s.phase.Calling? && !s.phase.op.Checkout?
    case SessionCreated(session) => s.phase.Calling? && s.phase.op.Checkout? && s.phase.order.amount.Some?
    case Settled(accepted) => s.phase.Verifying? && s.phase.order.session.Some? && s.phase.order.amount.Some?
    case Fixed => s.phase.Fixing?
    case Written => s.phase.Saving?
    case Sold(issued) => s.phase.Selling?
    case Found(tickets) => s.phase.Reconciling?
    case Abandon(written) => s.phase != Free
    case Restart(written) => true
    case Late(order) => order in s.stray
  }

  /** The branches of the handlers once the order is read. */
  function Branch(op: Operation, order: Order): Phase {
    match op
    case Complete =>
      if order.status == Issued then Free
      else if order.status == Paid || order.status == IssuanceFailed then Reconciling(order)
      else if order.status != CheckoutPending || order.amount.None? || order.session.None? then Free
      else Verifying(order)
    case Checkout(_) => if order.status != Draft || order.amount.None? then Free else Calling(op, order)
    case _ => if order.status != Draft then Free else Calling(op, order)
  }

  function Advanced(order: Order): Order {
    order.(version := order.version + 1)
  }

  /** The order after the railway answered an edit; `None` when nothing is saved. */
  function Edited(op: Operation, order: Order, amount: Option<Hellers>): Option<Order> {
    match op
    case RefreshQuote => Some(Advanced(order.(amount := amount)))
    case SelectOffer(offer) =>
      Some(Advanced(order.(offerType := Some(offer), amount := if amount.Some? then amount else order.amount)))
    case CancelOrder => Some(Advanced(order.(status := Cancelled)))
    case _ => None
  }

  /** `save_order`, first half: the record in memory. */
  function Save(s: State, order: Order, next: Next): State {
    s.(memory := Some(order), phase := Saving(order, next))
  }

  /** `save_order`, second half: the row. */
  function Wrote(s: State, order: Order): State {
    s.(row := if s.persistent then Some(order) else s.row)
  }

  /** The sale is the only step that calls the railway to issue tickets. */
  function StartSale(s: State, order: Order): State {
    s.(phase := Selling(order),
       log := s.log.(sales := s.log.sales + [(order.session.GetOr(0), order.amount.GetOr(0))]))
  }

  function Stopped(s: State, written: bool): State {
    var settled :=
      if !s.phase.Saving? || !s.persistent then s
      else if written then Wrote(s, s.phase.order)
      else s.(stray := s.stray + multiset{s.phase.order});
    settled.(phase := Free)
  }

  function Take(s: State, a: Action): State
    requires Enabled(s, a)
  {
    match a
    case Begin(op) => s.(phase := Reading(op))
    case Read => s.(phase := if Current(s).None? then Free else Branch(s.phase.op, Current(s).value))
    case Quoted(amount) =>
      var edited := Edited(s.phase.op, s.phase.order, amount);
      if edited.None? then s.(phase := Free) else Save(s, edited.value, Leave)
    case SessionCreated(session) =>
      var order := s.phase.order;
      Save(s, Advanced(order.(status := CheckoutPending, customer := Some(s.phase.op.customer),
                              session := Some(session))), Leave)
      .(log := s.log.(checkouts := s.log.checkouts + {(session, order.amount.value)}))
    case Settled(accepted) =>
      var order := s.phase.order;
      if !accepted then s.(phase := Free)
      else s.(phase := if order.customer.None? then Free else Fixing(order),
              log := s.log.(settled := s.log.settled + {(order.session.value, order.amount.value)}))
    case Fixed => Save(s, s.phase.order.(status := Paid), Sell)
    case Written =>
      var order, next := s.phase.order, s.phase.next;
      if next == Sell then StartSale(Wrote(s, order), order) else Wrote(s, order).(phase := Free)
    case Sold(issued) =>
      if issued then Save(s, Advanced(s.phase.order.(status := Issued)), Leave)
      else Save(s, s.phase.order.(status := IssuanceFailed), Leave)
    case Found(tickets) =>
      if tickets then Save(s, Advanced(s.phase.order.(status := Issued)), Leave) else s.(phase := Free)
    case Abandon(written) => Stopped(s, written)
    case Restart(written) => Stopped(s, written).(memory := None)
    case Late(order) => s.(row := Some(order), stray := s.stray - multiset{order})
  }

  // ---------------------------------------------------------------- the program

  class OrderService {
    const persistent: bool
    var memory: Option<Order>
    var row: Option<Order>
    var phase: Phase
    var stray: multiset<Order>
    ghost var log: Log

    ghost function Now(): State
      reads this
    {
      State(persistent, memory, row, phase, stray, log)
    }

    /** The end of `create_order`. */
    constructor (persistent: bool, amount: Option<Hellers>)
      ensures IsCreated(Now()) && Now().persistent == persistent && memory.value.amount == amount
    {
      var order := Order(Draft, None, amount, None, None, 0);
      this.persistent := persistent;
      memory, row, phase := Some(order), if persistent then Some(order) else None, Free;
      stray, log := multiset{}, Log({}, {}, []);
    }

    /** `mutation_guard` */
    method Begin(op: Operation)
      requires Enabled(Now(), Action.Begin(op))
      modifies this
      ensures Now() == Take(old(Now()), Action.Begin(op))
    {
      phase := Reading(op);
    }

    /** `owned_order` and the checks of the handler before it first calls outside. */
    method Read()
      requires Enabled(Now(), Action.Read)
      modifies this
      ensures Now() == Take(old(Now()), Action.Read)
    {
      var op := phase.op;
      var found := if memory.Some? then memory else row;
      phase := Free;
      if found.None? {
        return;
      }
      var o := found.value;
      if op.Complete? {
        if o.status == Issued {
          return;
        }
        if o.status == Paid || o.status == IssuanceFailed {
          phase := Reconciling(o);
          return;
        }
        if o.status != CheckoutPending || o.amount.None? || o.session.None? {
          return;
        }
        phase := Verifying(o);
        return;
      }
      if o.status != Draft || (op.Checkout? && o.amount.None?) {
        return;
      }
      phase := Calling(op, o);
    }

    method SaveOrder(o: Order, next: Next)
      modifies this`memory, this`phase
      ensures Now() == Save(old(Now()), o, next)
    {
      memory := Some(o);
      phase := Saving(o, next);
    }

    /** `refresh_quote`, `select_offer`, `cancel_order` and the add-ons, after the railway answered. */
    method Quoted(amount: Option<Hellers>)
      requires Enabled(Now(), Action.Quoted(amount))
      modifies this
      ensures Now() == Take(old(Now()), Action.Quoted(amount))
    {
      var op, o := phase.op, phase.order;
      if op.RefreshQuote? {
        o := o.(amount := amount);
      } else if op.SelectOffer? {
        o := o.(offerType := Some(op.offerType), amount := if amount.Some? then amount else o.amount);
      } else if op.CancelOrder? {
        o := o.(status := Cancelled);
      } else {
        phase := Free;
        return;
      }
      o := o.(version := o.version + 1);
      SaveOrder(o, Leave);
    }

    /** `checkout`, after the payment provider created a session. */
    method SessionCreated(session: Session)
      requires Enabled(Now(), Action.SessionCreated(session))
      modifies this
      ensures Now() == Take(old(Now()), Action.SessionCreated(session))
    {
      var o := phase.order;
      log := log.(checkouts := log.checkouts + {(session, o.amount.value)});
      o := o.(status := CheckoutPending);
      o := o.(customer := Some(phase.op.customer));
      o := o.(session := Some(session));
      o := o.(version := o.version + 1);
      SaveOrder(o, Leave);
    }

    /** `complete`, after `verify_settled`. */
    method Settled(accepted: bool)
      requires Enabled(Now(), Action.Settled(accepted))
      modifies this
      ensures Now() == Take(old(Now()), Action.Settled(accepted))
    {
      var o := phase.order;
      phase := Free;
      if accepted {
        log := log.(settled := log.settled + {(o.session.value, o.amount.value)});
        if o.customer.Some? {
          phase := Fixing(o);
        }
      }
    }

    /** `complete`, after `fix_price_offer`. */
    method Fixed()
      requires Enabled(Now(), Action.Fixed)
      modifies this
      ensures Now() == Take(old(Now()), Action.Fixed)
    {
      var o := phase.order;
      o := o.(status := Paid);
      SaveOrder(o, Sell);
    }

    /** The end of `save_order`, and for a paid order the call of `sell_tickets`. */
    method Written()
      requires Enabled(Now(), Action.Written)
      modifies this
      ensures Now() == Take(old(Now()), Action.Written)
    {
      var o, next := phase.order, phase.next;
      if persistent {
        row := Some(o);
      }
      phase := Free;
      if next == Sell {
        log := log.(sales := log.sales + [(o.session.GetOr(0), o.amount.GetOr(0))]);
        phase := Selling(o);
      }
    }

    method PersistIssued(order: Order)
      modifies this`memory, this`phase
      ensures Now() == Save(old(Now()), Advanced(order.(status := Issued)), Leave)
    {
      var o := order.(status := Issued);
      o := o.(version := o.version + 1);
      SaveOrder(o, Leave);
    }

    /** `complete`, after `sell_tickets` answered. */
    method Sold(issued: bool)
      requires Enabled(Now(), Action.Sold(issued))
      modifies this
      ensures Now() == Take(old(Now()), Action.Sold(issued))
    {
      var o := phase.order;
      if issued {
        PersistIssued(o);
      } else {
        o := o.(status := IssuanceFailed);
        SaveOrder(o, Leave);
      }
    }

    /** `complete`, after `sold_tickets` answered. */
    method Found(tickets: bool)
      requires Enabled(Now(), Action.Found(tickets))
      modifies this
      ensures Now() == Take(old(Now()), Action.Found(tickets))
    {
      if tickets {
        PersistIssued(phase.order);
      } else {
        phase := Free;
      }
    }

    method EndUpdate(written: bool)
      modifies this`row, this`stray
      ensures Now().(phase := Free) == Stopped(old(Now()), written)
    {
      if phase.Saving? && persistent {
        if written {
          row := Some(phase.order);
        } else {
          stray := stray + multiset{phase.order};
        }
      }
    }

    /** An update nobody waits for any more takes effect after all. */
    method Late(order: Order)
      requires Enabled(Now(), Action.Late(order))
      modifies this
      ensures Now() == Take(old(Now()), Action.Late(order))
    {
      row := Some(order);
      stray := stray - multiset{order};
    }

    /** The request is dropped, or an awaited call fails; `written` says whether a row update under way took effect. */
    method Abandon(written: bool)
      requires Enabled(Now(), Action.Abandon(written))
      modifies this
      ensures Now() == Take(old(Now()), Action.Abandon(written))
    {
      EndUpdate(written);
      phase := Free;
    }

    method Restart(written: bool)
      modifies this
      ensures Now() == Take(old(Now()), Action.Restart(written))
    {
      EndUpdate(written);
      phase := Free;
      memory := None;
    }
  }

  // ---------------------------------------------------------------- what every step keeps

  predicate PastCheckout(status: Status) {
    status != Draft && status != Cancelled
  }

  function Rank(status: Status): nat {
    match status
    case Draft => 0
    case CheckoutPending => 1
    case Cancelled => 1
    case Paid => 2
    case IssuanceFailed => 2
    case Issued => 3
  }

  /** `later` may replace `order`: a draft may become anything; after that the terms of payment stand, the status only
      advances, and a cancelled order stays cancelled. */
  predicate Follows(order: Order, later: Order) {
    || order.status == Draft
    || (&& later.amount == order.amount && later.session == order.session && later.customer == order.customer
        && Rank(order.status) <= Rank(later.status)
        && (order.status == Cancelled <==> later.status == Cancelled))
  }

  /** An order past checkout carries the session and the amount of a checkout that took place. */
  predicate Founded(log: Log, order: Option<Order>) {
    order.Some? && PastCheckout(order.value.status) ==>
      && order.value.amount.Some? && order.value.session.Some? && order.value.customer.Some?
      && (order.value.session.value, order.value.amount.value) in log.checkouts
  }

  predicate Terms(order: Order, terms: (Session, Hellers)) {
    order.session == Some(terms.0) && order.amount == Some(terms.1)
  }

  predicate SettledOrder(log: Log, order: Order) {
    order.session.Some? && order.amount.Some? && (order.session.value, order.amount.value) in log.settled
  }

  /** What the handler holds is the current order, in the state its place in the code demands. */
  predicate PhaseSound(s: State) {
    match s.phase
    case Calling(op, o) => Current(s) == Some(o) && o.status == Draft
    case Verifying(o) => Current(s) == Some(o) && o.status == CheckoutPending
    case Fixing(o) => Current(s) == Some(o) && o.status == CheckoutPending && SettledOrder(s.log, o)
    case Saving(o, next) => s.memory == Some(o) && (next == Sell ==> o.status == Paid && SettledOrder(s.log, o))
    case Selling(o) => Current(s) == Stored(s) == Some(o) && o.status == Paid && |s.log.sales| == 1
    case Reconciling(o) => Current(s) == Some(o) && (o.status == Paid || o.status == IssuanceFailed)
    case _ => true
  }

  predicate StoresAgree(s: State) {
    && (s.persistent <==> s.row.Some?)
    && (s.row.Some? && s.memory.Some? ==> Follows(s.row.value, s.memory.value))
    && Founded(s.log, s.row) && Founded(s.log, s.memory)
  }

  /** The order was sold on these terms; wherever it is still on record, it is recorded as paid. */
  predicate SoldOn(s: State, terms: (Session, Hellers)) {
    && terms in s.log.settled && terms in s.log.checkouts
    && (s.memory.Some? ==> Rank(s.memory.value.status) >= 2 && Terms(s.memory.value, terms))
    && (s.row.Some? ==> Rank(s.row.value.status) >= 2 && Terms(s.row.value, terms))
    && !(s.phase.Saving? && s.phase.next == Sell)
  }

  predicate SoldOnce(s: State) {
    s.log.sales == [] || (|s.log.sales| == 1 && SoldOn(s, s.log.sales[0]))
  }

  predicate Sound(s: State) {
    PhaseSound(s) && StoresAgree(s) && SoldOnce(s)
  }

  lemma SoundStarts(s: State, a: Action)
    requires a.Begin? || a.Read?
    requires Enabled(s, a) && !a.Late? && Sound(s)
    ensures Sound(Take(s, a))
  {
  }

  lemma SoundAnswered(s: State, a: Action)
    requires a.Quoted? || a.SessionCreated? || a.Settled?
    requires Enabled(s, a) && !a.Late? && Sound(s)
    ensures Sound(Take(s, a))
  {
  }

  lemma SoundPays(s: State, a: Action)
    requires a.Fixed? || a.Written?
    requires Enabled(s, a) && !a.Late? && Sound(s)
    ensures Sound(Take(s, a))
  {
  }

  lemma SoundIssues(s: State, a: Action)
    requires a.Sold?
    requires Enabled(s, a) && !a.Late? && Sound(s)
    ensures Sound(Take(s, a))
  {
  }

  lemma SoundReconciles(s: State, a: Action)
    requires a.Found?
    requires Enabled(s, a) && !a.Late? && Sound(s)
    ensures Sound(Take(s, a))
  {
  }

  lemma SoundStops(s: State, a: Action)
    requires a.Abandon? || a.Restart?
    requires Enabled(s, a) && !a.Late? && Sound(s)
    ensures Sound(Take(s, a))
  {
  }

  lemma SoundStep(s: State, a: Action)
    requires Enabled(s, a) && !a.Late? && Sound(s)
    ensures Sound(Take(s, a))
  {
    match a
    case Begin(_) => SoundStarts(s, a);
    case Read => SoundStarts(s, a);
    case Quoted(_) => SoundAnswered(s, a);
    case SessionCreated(_) => SoundAnswered(s, a);
    case Settled(_) => SoundAnswered(s, a);
    case Fixed => SoundPays(s, a);
    case Written => SoundPays(s, a);
    case Sold(_) => SoundIssues(s, a);
    case Found(_) => SoundReconciles(s, a);
    case Abandon(_) => SoundStops(s, a);
    case Restart(_) => SoundStops(s, a);
  }

  /** The record that survives the process, when there is one. */
  function Stored(s: State): Option<Order> {
    if s.persistent then s.row else s.memory
  }

  predicate StoredFollows(s: State, later: State) {
    Stored(s).Some? && Stored(later).Some? ==> Follows(Stored(s).value, Stored(later).value)
  }

  lemma StoredStep(s: State, a: Action)
    requires Enabled(s, a) && !a.Late? && Sound(s)
    ensures StoredFollows(s, Take(s, a))
    ensures Take(s, a).persistent == s.persistent
    ensures Stored(s).None? ==> Stored(Take(s, a)).None?
  {
  }

  // ---------------------------------------------------------------- whole runs

  ghost predicate Possible(start: State, run: seq<Action>)
    decreases |run|, 0
  {
    |run| == 0
    || (Possible(start, run[..|run| - 1]) && Enabled(StateAfter(start, run[..|run| - 1]), run[|run| - 1]))
  }

  ghost function StateAfter(start: State, run: seq<Action>): State
    requires Possible(start, run)
    decreases |run|, 1
  {
    if |run| == 0 then start else Take(StateAfter(start, run[..|run| - 1]), run[|run| - 1])
  }

  /** No update takes effect once its caller has given up. */
  predicate Prompt(run: seq<Action>) {
    forall i :: 0 <= i < |run| ==> !run[i].Late?
  }

  lemma {:induction false} AlwaysSound(start: State, run: seq<Action>)
    requires Sound(start) && Possible(start, run) && Prompt(run)
    ensures Sound(StateAfter(start, run))
  {
    if |run| > 0 {
      AlwaysSound(start, run[..|run| - 1]);
      hide Sound, Take, Enabled;
      SoundStep(StateAfter(start, run[..|run| - 1]), run[|run| - 1]);
    }
  }

  /** Over every interleaving of handlers, abandoned requests and restarts, the tickets of an order are sold at most
      once, and only on the terms of a checkout session that the payment provider created and found settled. */
  lemma SellAtMostOnce(start: State, run: seq<Action>)
    requires IsCreated(start) && Possible(start, run) && Prompt(run)
    ensures var log := StateAfter(start, run).log;
            |log.sales| <= 1 && forall terms :: terms in log.sales ==> terms in log.checkouts && terms in log.settled
  {
    assert Sound(start);
    AlwaysSound(start, run);
  }

  /** At the moment of the sale, the stored order itself is paid and carries the terms it is sold on. */
  lemma SoldAsStored(start: State, run: seq<Action>)
    requires IsCreated(start) && Possible(start, run) && Prompt(run) && StateAfter(start, run).phase.Selling?
    ensures var s := StateAfter(start, run);
            && |s.log.sales| == 1 && Stored(s).Some? && Stored(s).value.status == Paid
            && Terms(Stored(s).value, s.log.sales[0])
  {
    AlwaysSound(start, run);
  }

  /** Upstream edits are only ever requested for an order that is a draft in memory or, failing that, in the
      database. */
  lemma EditsOnlyDrafts(start: State, run: seq<Action>)
    requires IsCreated(start) && Possible(start, run) && Prompt(run) && StateAfter(start, run).phase.Calling?
    ensures var s := StateAfter(start, run); Current(s) == Some(s.phase.order) && s.phase.order.status == Draft
  {
    AlwaysSound(start, run);
  }

  /** Once an order is stored past checkout, its amount, session and customer never change and its status only
      advances. */
  lemma {:induction false} TermsStand(start: State, run: seq<Action>, n: nat)
    requires Sound(start) && Possible(start, run) && Prompt(run) && n <= |run| && Possible(start, run[..n])
    ensures StoredFollows(StateAfter(start, run[..n]), StateAfter(start, run))
    ensures Stored(StateAfter(start, run[..n])).None? ==> Stored(StateAfter(start, run)).None?
  {
    hide Sound, Take, Enabled, StoredFollows, Stored;
    if n == |run| {
      assert run[..n] == run;
      StoredChain(StateAfter(start, run), StateAfter(start, run), StateAfter(start, run));
    } else {
      var front := run[..|run| - 1];
      assert front[..n] == run[..n];
      TermsStand(start, front, n);
      AlwaysSound(start, front);
      StoredStep(StateAfter(start, front), run[|run| - 1]);
      StoredChain(StateAfter(start, run[..n]), StateAfter(start, front), StateAfter(start, run));
    }
  }

  lemma StoredChain(s: State, middle: State, later: State)
    ensures StoredFollows(s, s)
    ensures StoredFollows(s, middle) ==>
              (StoredFollows(middle, later) && (Stored(middle).None? ==> Stored(later).None?)) ==>
                StoredFollows(s, later)
  {
  }

  // ---------------------------------------------------------------- late updates

  /** From this record an order can still be sold. */
  predicate Sellable(order: Order) {
    order.status == Draft || order.status == CheckoutPending
  }

  /** The record a handler is about to put back or act on. */
  function Carried(phase: Phase): Option<Order> {
    if phase.Free? || phase.Reading? then None else Some(phase.order)
  }

  ghost predicate AllFounded(log: Log, orders: multiset<Order>) {
    forall o :: o in orders ==> Founded(log, Some(o))
  }

  predicate SalesSettled(log: Log) {
    forall terms :: terms in log.sales ==> terms in log.checkouts && terms in log.settled
  }

  /** What the place of the handler says about the order it holds. */
  predicate PhaseSolid(s: State) {
    match s.phase
    case Fixing(o) => o.status == CheckoutPending && SettledOrder(s.log, o)
    case Saving(o, next) => s.memory == Some(o) && (next == Sell ==> o.status == Paid && SettledOrder(s.log, o))
    case Verifying(o) => o.status == CheckoutPending
    case Calling(op, o) => o.status == Draft
    case Selling(o) => o.status == Paid && s.memory == Some(o)
    case Reconciling(o) => o.status == Paid || o.status == IssuanceFailed
    case _ => true
  }

  /** What holds even when updates take effect late. */
  ghost predicate Solid(s: State) {
    && (s.row.Some? <==> s.persistent) && (!s.persistent ==> s.stray == multiset{})
    && Founded(s.log, s.row) && Founded(s.log, s.memory) && Founded(s.log, Carried(s.phase))
    && AllFounded(s.log, s.stray)
    && SalesSettled(s.log)
    && PhaseSolid(s)
  }

  lemma SolidStarts(s: State, a: Action)
    requires a.Begin? || a.Read?
    requires Enabled(s, a) && Solid(s)
    ensures Solid(Take(s, a))
  {
    AllFoundedStep(s, a);
    SalesSettledStep(s, a);
    hide AllFounded, SalesSettled;
  }

  lemma SolidQuoted(s: State, a: Action)
    requires a.Quoted?
    requires Enabled(s, a) && Solid(s)
    ensures Solid(Take(s, a))
  {
    AllFoundedStep(s, a);
    SalesSettledStep(s, a);
    hide AllFounded, SalesSettled;
  }

  lemma SolidAgreed(s: State, a: Action)
    requires a.SessionCreated? || a.Settled?
    requires Enabled(s, a) && Solid(s)
    ensures Solid(Take(s, a))
  {
    AllFoundedStep(s, a);
    SalesSettledStep(s, a);
    hide AllFounded, SalesSettled;
  }

  lemma SolidPays(s: State, a: Action)
    requires a.Fixed? || a.Written?
    requires Enabled(s, a) && Solid(s)
    ensures Solid(Take(s, a))
  {
    AllFoundedStep(s, a);
    SalesSettledStep(s, a);
    hide AllFounded, SalesSettled;
  }

  lemma SolidIssues(s: State, a: Action)
    requires a.Sold?
    requires Enabled(s, a) && Solid(s)
    ensures Solid(Take(s, a))
  {
    AllFoundedStep(s, a);
    SalesSettledStep(s, a);
    hide AllFounded, SalesSettled;
  }

  lemma SolidReconciles(s: State, a: Action)
    requires a.Found?
    requires Enabled(s, a) && Solid(s)
    ensures Solid(Take(s, a))
  {
    AllFoundedStep(s, a);
    SalesSettledStep(s, a);
    hide AllFounded, SalesSettled;
  }

  lemma SolidStops(s: State, a: Action)
    requires a.Abandon? || a.Restart? || a.Late?
    requires Enabled(s, a) && Solid(s)
    ensures Solid(Take(s, a))
  {
    AllFoundedStep(s, a);
    SalesSettledStep(s, a);
    hide AllFounded, SalesSettled, Founded, SettledOrder, Edited, Branch, Advanced;
  }

  lemma SolidStep(s: State, a: Action)
    requires Enabled(s, a) && Solid(s)
    ensures Solid(Take(s, a))
  {
    match a
    case Begin(_) => SolidStarts(s, a);
    case Read => SolidStarts(s, a);
    case Quoted(_) => SolidQuoted(s, a);
    case SessionCreated(_) => SolidAgreed(s, a);
    case Settled(_) => SolidAgreed(s, a);
    case Fixed => SolidPays(s, a);
    case Written => SolidPays(s, a);
    case Sold(_) => SolidIssues(s, a);
    case Found(_) => SolidReconciles(s, a);
    case Abandon(_) => SolidStops(s, a);
    case Restart(_) => SolidStops(s, a);
    case Late(_) => SolidStops(s, a);
  }

  lemma AllFoundedStep(s: State, a: Action)
    requires Enabled(s, a) && AllFounded(s.log, s.stray) && Founded(s.log, Carried(s.phase))
    ensures AllFounded(Take(s, a).log, Take(s, a).stray)
    ensures a.Late? ==> Founded(s.log, Some(a.order))
  {
    var after := Take(s, a);
    assert forall terms :: terms in s.log.checkouts ==> terms in after.log.checkouts;
    StraysCarried(s, a);
  }

  lemma SalesSettledStep(s: State, a: Action)
    requires Enabled(s, a) && SalesSettled(s.log) && Founded(s.log, Carried(s.phase)) && PhaseSolid(s)
    ensures SalesSettled(Take(s, a).log)
  {
    var after := Take(s, a);
    assert forall terms :: terms in s.log.checkouts ==> terms in after.log.checkouts;
    assert forall terms :: terms in s.log.settled ==> terms in after.log.settled;
  }

  lemma {:induction false} AlwaysSolid(start: State, run: seq<Action>)
    requires Solid(start) && Possible(start, run)
    ensures Solid(StateAfter(start, run))
  {
    if |run| > 0 {
      AlwaysSolid(start, run[..|run| - 1]);
      hide Solid, Take, Enabled;
      SolidStep(StateAfter(start, run[..|run| - 1]), run[|run| - 1]);
    }
  }

  /** However late updates take effect, every sale is on terms that were agreed and settled. */
  lemma SalesAreSettled(start: State, run: seq<Action>)
    requires IsCreated(start) && Possible(start, run)
    ensures var log := StateAfter(start, run).log;
            forall terms :: terms in log.sales ==> terms in log.checkouts && terms in log.settled
  {
    AlwaysSolid(start, run);
  }

  /** A sellable update is under way whose request was given up. */
  ghost predicate SellableStray(s: State) {
    exists o :: o in s.stray && Sellable(o)
  }

  /** A record from which the order could be sold is in the database or may still get there. */
  ghost predicate Loose(s: State) {
    (s.row.Some? && Sellable(s.row.value)) || SellableStray(s)
  }

  /** No record from which the order could be sold is left anywhere. */
  ghost predicate Spent(s: State) {
    && !Loose(s)
    && (s.memory.Some? ==> !Sellable(s.memory.value))
    && (Carried(s.phase).Some? ==> !Sellable(s.phase.order))
    && !(s.phase.Saving? && s.phase.next == Sell)
  }

  lemma SpentHandled(s: State, a: Action)
    requires a.Begin? || a.Read? || a.Quoted? || a.SessionCreated? || a.Settled?
    requires Enabled(s, a) && PhaseSolid(s) && Spent(s)
    ensures Spent(Take(s, a)) && Take(s, a).log.sales == s.log.sales
  {
    LooseStep(s, a);
    hide Loose;
  }

  lemma SpentWritten(s: State, a: Action)
    requires a.Fixed? || a.Written?
    requires Enabled(s, a) && PhaseSolid(s) && Spent(s)
    ensures Spent(Take(s, a)) && Take(s, a).log.sales == s.log.sales
  {
    LooseStep(s, a);
    hide Loose;
  }

  lemma SpentIssues(s: State, a: Action)
    requires a.Sold? || a.Found?
    requires Enabled(s, a) && PhaseSolid(s) && Spent(s)
    ensures Spent(Take(s, a)) && Take(s, a).log.sales == s.log.sales
  {
    LooseStep(s, a);
    hide Loose;
  }

  lemma SpentStops(s: State, a: Action)
    requires a.Abandon? || a.Restart? || a.Late?
    requires Enabled(s, a) && PhaseSolid(s) && Spent(s)
    ensures Spent(Take(s, a)) && Take(s, a).log.sales == s.log.sales
  {
    LooseStep(s, a);
    hide Loose;
  }

  lemma SpentStep(s: State, a: Action)
    requires Enabled(s, a) && PhaseSolid(s) && Spent(s)
    ensures Spent(Take(s, a)) && Take(s, a).log.sales == s.log.sales
  {
    match a
    case Begin(_) => SpentHandled(s, a);
    case Read => SpentHandled(s, a);
    case Quoted(_) => SpentHandled(s, a);
    case SessionCreated(_) => SpentHandled(s, a);
    case Settled(_) => SpentHandled(s, a);
    case Fixed => SpentWritten(s, a);
    case Written => SpentWritten(s, a);
    case Sold(_) => SpentIssues(s, a);
    case Found(_) => SpentIssues(s, a);
    case Abandon(_) => SpentStops(s, a);
    case Restart(_) => SpentStops(s, a);
    case Late(_) => SpentStops(s, a);
  }

  lemma LooseStep(s: State, a: Action)
    requires Enabled(s, a) && Spent(s)
    ensures !Loose(Take(s, a))
  {
    hide Take, Enabled, Sellable;
    StraysCarried(s, a);
    RowCarried(s, a);
  }

  /** What a step writes to the row was carried by the handler or astray. */
  lemma RowCarried(s: State, a: Action)
    requires Enabled(s, a)
    ensures Take(s, a).row == s.row || Take(s, a).row == Carried(s.phase) || (a.Late? && Take(s, a).row == Some(a.order))
    ensures a.Late? ==> a.order in s.stray
  {
    hide Edited, Branch, Advanced;
  }

  /** An update goes astray only when its request is given up. */
  lemma StraysCarried(s: State, a: Action)
    requires Enabled(s, a)
    ensures forall o :: o in Take(s, a).stray ==> o in s.stray || Carried(s.phase) == Some(o)
    ensures !a.Abandon? && !a.Restart? && !a.Late? ==> Take(s, a).stray == s.stray
  {
  }

  lemma {:induction false} StaysSpent(start: State, run: seq<Action>, longer: seq<Action>)
    requires Solid(start) && Possible(start, run) && Spent(StateAfter(start, run))
    requires run <= longer && Possible(start, longer)
    ensures Spent(StateAfter(start, longer)) && StateAfter(start, longer).log.sales == StateAfter(start, run).log.sales
  {
    if |run| == |longer| {
      assert run == longer;
    } else {
      var front := longer[..|longer| - 1];
      StaysSpent(start, run, front);
      AlwaysSolid(start, front);
      hide Solid, Spent, Take, Enabled;
      SpentStep(StateAfter(start, front), longer[|longer| - 1]);
    }
  }

  lemma Extend(start: State, run: seq<Action>, a: Action) returns (longer: seq<Action>)
    requires Possible(start, run) && Enabled(StateAfter(start, run), a)
    ensures longer == run + [a] && Possible(start, longer)
    ensures StateAfter(start, longer) == Take(StateAfter(start, run), a)
    ensures Prompt(run) && !a.Late? ==> Prompt(longer)
  {
    longer := run + [a];
    assert longer[..|longer| - 1] == run;
  }

  /** A restarted process with a row past checkout can sell it. */
  lemma SellFromCheckout(start: State, run: seq<Action>) returns (longer: seq<Action>)
    requires Solid(start) && Possible(start, run)
    requires IdleWith(StateAfter(start, run), CheckoutPending)
    ensures run <= longer && Possible(start, longer) && (Prompt(run) ==> Prompt(longer))
    ensures |StateAfter(start, longer).log.sales| == |StateAfter(start, run).log.sales| + 1
    ensures StateAfter(start, longer).phase.Selling?
    ensures StateAfter(start, longer).stray == StateAfter(start, run).stray
  {
    AlwaysSolid(start, run);
    hide StateAfter, Possible, Prompt, AllFounded, SalesSettled, PhaseSolid;
    longer := PayCheckout(start, run);
    longer := Extend(start, longer, Action.Fixed);
    longer := Extend(start, longer, Action.Written);
  }

  /** A stored checkout can be verified. */
  lemma PayCheckout(start: State, run: seq<Action>) returns (longer: seq<Action>)
    requires Possible(start, run) && IdleWith(StateAfter(start, run), CheckoutPending)
    requires var s := StateAfter(start, run); Founded(s.log, Current(s))
    ensures run <= longer && Possible(start, longer) && (Prompt(run) ==> Prompt(longer))
    ensures var s, later := StateAfter(start, run), StateAfter(start, longer);
            && later.phase == Fixing(Current(s).value)
            && later.stray == s.stray && later.log.sales == s.log.sales
  {
    hide StateAfter, Possible, Prompt;
    longer := Extend(start, run, Action.Begin(Complete));
    longer := Extend(start, longer, Action.Read);
    longer := Extend(start, longer, Action.Settled(true));
  }

  /** The state of an idle process whose current order has the given status. */
  predicate IdleWith(s: State, status: Status) {
    s.phase == Free && Current(s).Some? && Current(s).value.status == status
  }

  /** A draft can be given a price. */
  lemma QuoteDraft(start: State, run: seq<Action>) returns (longer: seq<Action>)
    requires Possible(start, run) && IdleWith(StateAfter(start, run), Draft)
    ensures run <= longer && Possible(start, longer) && (Prompt(run) ==> Prompt(longer))
    ensures var s := StateAfter(start, longer);
            && IdleWith(s, Draft) && Current(s).value.amount.Some?
            && s.log == StateAfter(start, run).log && s.persistent == StateAfter(start, run).persistent
  {
    hide StateAfter, Possible, Prompt;
    longer := Extend(start, run, Action.Begin(RefreshQuote));
    longer := Extend(start, longer, Action.Read);
    longer := Extend(start, longer, Action.Quoted(Some(1)));
    longer := Extend(start, longer, Action.Written);
  }

  /** A priced draft can be brought to the point where its checkout is being saved. */
  lemma SaveCheckout(start: State, run: seq<Action>) returns (longer: seq<Action>)
    requires Possible(start, run)
    requires var s := StateAfter(start, run); IdleWith(s, Draft) && Current(s).value.amount.Some?
    ensures run <= longer && Possible(start, longer) && (Prompt(run) ==> Prompt(longer))
    ensures var s := StateAfter(start, longer);
            && s.phase.Saving? && s.phase.next == Leave && s.phase.order.status == CheckoutPending
            && s.memory == Some(s.phase.order)
            && s.log.sales == StateAfter(start, run).log.sales && s.persistent == StateAfter(start, run).persistent
  {
    hide StateAfter, Possible, Prompt;
    longer := Extend(start, run, Action.Begin(Checkout(0)));
    longer := Extend(start, longer, Action.Read);
    longer := Extend(start, longer, Action.SessionCreated(0));
  }

  lemma CheckOutDraft(start: State, run: seq<Action>) returns (longer: seq<Action>)
    requires Possible(start, run) && IdleWith(StateAfter(start, run), Draft)
    ensures run <= longer && Possible(start, longer) && (Prompt(run) ==> Prompt(longer))
    ensures IdleWith(StateAfter(start, longer), CheckoutPending)
    ensures StateAfter(start, longer).log.sales == StateAfter(start, run).log.sales
  {
    hide StateAfter, Possible, Prompt;
    longer := QuoteDraft(start, run);
    longer := SaveCheckout(start, longer);
    longer := Extend(start, longer, Action.Written);
  }

  /** Every created order can be sold. */
  lemma CreatedCanBeSold(start: State) returns (run: seq<Action>)
    requires IsCreated(start)
    ensures Possible(start, run) && Prompt(run)
    ensures StateAfter(start, run).phase.Selling? && |StateAfter(start, run).log.sales| == 1
  {
    run := CheckOutDraft(start, []);
    run := SellFromCheckout(start, run);
  }

  /** If a record from before the payment is in the database or gets there late, a restarted process sells once more. */
  lemma LooseSellsAgain(start: State, run: seq<Action>) returns (longer: seq<Action>)
    requires Solid(start) && Possible(start, run)
    requires StateAfter(start, run).phase.Selling? && Loose(StateAfter(start, run))
    ensures run <= longer && Possible(start, longer)
    ensures |StateAfter(start, longer).log.sales| == |StateAfter(start, run).log.sales| + 1
  {
    AlwaysSolid(start, run);
    var s := StateAfter(start, run);
    hide Possible, StateAfter;
    longer := Extend(start, run, Action.Restart(true));
    if !Sellable(s.row.value) {
      longer := LandLate(start, longer);
    }
    if Current(StateAfter(start, longer)).value.status == Draft {
      longer := CheckOutDraft(start, longer);
    }
    longer := SellFromCheckout(start, longer);
  }

  lemma LandLate(start: State, run: seq<Action>) returns (longer: seq<Action>)
    requires Possible(start, run)
    requires var s := StateAfter(start, run); s.phase == Free && s.memory == None && SellableStray(s)
    ensures run <= longer && Possible(start, longer)
    ensures var s := StateAfter(start, longer);
            && s.phase == Free && Current(s).Some? && Sellable(Current(s).value)
            && s.log.sales == StateAfter(start, run).log.sales
  {
    var order :| order in StateAfter(start, run).stray && Sellable(order);
    longer := Extend(start, run, Action.Late(order));
  }

  /** When an order has just been sold, it is never sold again, come what may, exactly if the row is past the payment and
      no abandoned update from before the payment is still under way. */
  lemma NeverAgainExactly(start: State, run: seq<Action>)
    requires IsCreated(start) && Possible(start, run) && StateAfter(start, run).phase.Selling?
    ensures (forall longer :: run <= longer && Possible(start, longer) ==>
               StateAfter(start, longer).log.sales == StateAfter(start, run).log.sales)
            <==> !Loose(StateAfter(start, run))
  {
    AlwaysSolid(start, run);
    var s := StateAfter(start, run);
    if !Loose(s) {
      forall longer | run <= longer && Possible(start, longer)
        ensures StateAfter(start, longer).log.sales == s.log.sales
      {
        StaysSpent(start, run, longer);
      }
    } else {
      var longer := LooseSellsAgain(start, run);
      assert StateAfter(start, longer).log.sales != s.log.sales;
    }
  }

  /** A checkout abandoned while its row was being updated: the order awaits payment in memory alone. */
  lemma AbandonedCheckout(start: State) returns (run: seq<Action>)
    requires IsCreated(start) && start.persistent
    ensures Possible(start, run) && Prompt(run)
    ensures var s := StateAfter(start, run); IdleWith(s, CheckoutPending) && SellableStray(s) && s.log.sales == []
  {
    assert Possible(start, []) && StateAfter(start, []) == start;
    hide StateAfter, Possible, Prompt;
    run := QuoteDraft(start, []);
    run := SaveCheckout(start, run);
    var order := StateAfter(start, run).phase.order;
    run := Extend(start, run, Action.Abandon(false));
    assert order in StateAfter(start, run).stray;
  }

  /** Paid and completed, it is sold while an update from before the payment is still under way. */
  lemma SaleWithLateUpdate(start: State) returns (run: seq<Action>)
    requires IsCreated(start) && start.persistent
    ensures Possible(start, run) && Prompt(run)
    ensures var s := StateAfter(start, run); s.phase.Selling? && Loose(s) && |s.log.sales| == 1
  {
    assert Solid(start);
    hide StateAfter, Possible, Prompt, Solid;
    run := AbandonedCheckout(start);
    run := SellFromCheckout(start, run);
  }

  /** So from every created order in a database some run sells it twice. */
  lemma SoldTwice(start: State) returns (run: seq<Action>)
    requires IsCreated(start) && start.persistent
    ensures Possible(start, run) && |StateAfter(start, run).log.sales| == 2
  {
    run := SaleWithLateUpdate(start);
    run := LooseSellsAgain(start, run);
  }
}
