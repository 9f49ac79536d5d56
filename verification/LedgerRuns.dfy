/** Whole runs of the interleaved handlers. */
module LedgerRuns {
  import opened Wrappers
  import opened Money
  import opened Ledger
  import opened LedgerSteps
  import opened Sums

  ghost predicate IsRun(states: seq<State>, labels: seq<Label>) {
    && |states| == |labels| + 1
    && Initial(states[0])
    && forall k | 0 <= k < |labels| :: Enabled(states[k], labels[k]) && states[k + 1] == Step(states[k], labels[k])
  }

  lemma {:induction false} RunInv(states: seq<State>, labels: seq<Label>, k: nat)
    requires IsRun(states, labels) && k < |states|
    ensures Inv(states[k])
  {
    if k > 0 {
      RunInv(states, labels, k - 1);
      StepKeepsInv(states[k - 1], labels[k - 1]);
    }
  }

  // ---------- what holds of every reachable state ----------

  /** Every payment copies its invoice's organisation, total and currency, and neither an invoice
      with a payment nor one a checkout has loaded is in draft. */
  lemma PaymentsMatchInvoices(states: seq<State>, labels: seq<Label>, k: nat)
    requires IsRun(states, labels) && k < |states|
    ensures var db := states[k].db;
            && (forall p | 0 <= p < |db.payments| ::
                  var pay := db.payments[p];
                  pay.invoice < |db.invoices| && var inv := db.invoices[pay.invoice];
                  pay.org == inv.org && pay.amount == inv.money.total && pay.currency == inv.currency
                  && inv.status != Draft)
            && (forall h | 0 <= h < |states[k].handlers| && states[k].handlers[h].CheckoutLoaded? ::
                  var c := states[k].handlers[h];
                  c.invoice < |db.invoices| && var inv := db.invoices[c.invoice];
                  c.org == inv.org && c.amount == inv.money.total && c.currency == inv.currency
                  && inv.status != Draft)
  {
    RunInv(states, labels, k);
    forall p | 0 <= p < |states[k].db.payments| ensures PaymentOk(states[k].db, states[k].db.payments[p]) {}
    forall h | 0 <= h < |states[k].handlers| ensures HandlerOk(states[k].db, states[k].handlers[h]) {}
  }

  /** No invoice is ever `partially_paid`, and a snapshot never decides it, in any run. */
  lemma PartiallyPaidIsDead(states: seq<State>, labels: seq<Label>, k: nat, i: nat)
    requires IsRun(states, labels) && k < |states| && i < |states[k].db.invoices|
    ensures states[k].db.invoices[i].status != PartiallyPaid
    ensures Decide(states[k].db.invoices[i].money.total, AmountPaid(states[k].db, i)) != Some(PartiallyPaid)
    ensures exists n: nat :: AmountPaid(states[k].db, i) == n * states[k].db.invoices[i].money.total
  {
    RunInv(states, labels, k);
    assert InvoiceOk(states[k].db.invoices[i]);
    NeverPartial(states[k].db, i);
    PaidIsWholeTotals(states[k].db, i);
    var n: nat := Sum(states[k].db.payments, SucceededCount(i));
    assert AmountPaid(states[k].db, i) == n * states[k].db.invoices[i].money.total;
  }

  /** Created or edited, the stored total of every invoice is within a cent of its stored parts. */
  lemma StoredTotalsAgree(states: seq<State>, labels: seq<Label>, k: nat, i: nat)
    requires IsRun(states, labels) && k < |states| && i < |states[k].db.invoices|
    ensures Balanced(states[k].db.invoices[i].money)
  {
    RunInv(states, labels, k);
    assert InvoiceOk(states[k].db.invoices[i]);
  }

  /** A paid invoice was sent, has its `paid_at`, and has a payment with `paid_at` set. */
  lemma PaidIsBacked(states: seq<State>, labels: seq<Label>, k: nat, i: nat)
    requires IsRun(states, labels) && k < |states| && i < |states[k].db.invoices|
    requires states[k].db.invoices[i].status == Paid
    ensures states[k].db.invoices[i].sentAt.Some? && states[k].db.invoices[i].paidAt.Some?
    ensures exists p :: PaidBy(states[k].db, p, i)
  {
    RunInv(states, labels, k);
    assert InvoiceOk(states[k].db.invoices[i]);
    assert HasPaidPayment(states[k].db, i);
  }

  // ---------- what whole runs keep ----------

  /** Between any two moments of a run: statuses only climb, money columns of an invoice out of
      draft are frozen, and sent_at, viewed_at and both paid_at columns are written once. */
  lemma RunGrows(states: seq<State>, labels: seq<Label>, j: nat, k: nat)
    requires IsRun(states, labels) && j <= k < |states|
    ensures Grows(states[j].db, states[k].db)
  {
    var dbs := seq(|states|, m requires 0 <= m < |states| => states[m].db);
    forall m | 0 <= m < |labels| ensures Grows(dbs[m], dbs[m + 1]) {
      RunStepGrows(states, labels, m);
    }
    RunInv(states, labels, j);
    GrowsReflexive(states[j].db);
    GrowsChain(dbs, j, k);
  }

  lemma {:induction false} GrowsChain(dbs: seq<Tables>, j: nat, k: nat)
    requires j <= k < |dbs| && Grows(dbs[j], dbs[j])
    requires forall m | 0 <= m < |dbs| - 1 :: Grows(dbs[m], dbs[m + 1])
    ensures Grows(dbs[j], dbs[k])
  {
    if j < k {
      GrowsChain(dbs, j, k - 1);
      assert Grows(dbs[k - 1], dbs[k - 1 + 1]);
      GrowsTransitive(dbs[j], dbs[k - 1], dbs[k]);
    }
  }

  lemma RunStepGrows(states: seq<State>, labels: seq<Label>, k: nat)
    requires IsRun(states, labels) && k < |labels|
    ensures Grows(states[k].db, states[k + 1].db)
  {
    RunInv(states, labels, k);
    StepKeepsInv(states[k], labels[k]);
  }

  lemma GrowsReflexive(db: Tables)
    requires InvoicesOk(db)
    ensures Grows(db, db)
  {
    forall i | 0 <= i < |db.invoices| ensures InvoiceGrows(db.invoices[i], db.invoices[i]) {
      assert InvoiceOk(db.invoices[i]);
    }
  }

  /** A step changes an invoice's status only upwards, strictly. */
  lemma StatusWritesClimb(states: seq<State>, labels: seq<Label>, k: nat, i: nat)
    requires IsRun(states, labels) && k < |labels| && i < |states[k].db.invoices|
    ensures i < |states[k + 1].db.invoices|
    ensures var a, b := states[k].db.invoices[i].status, states[k + 1].db.invoices[i].status;
            a != PartiallyPaid && b != PartiallyPaid && (a != b ==> Rank(a) < Rank(b))
  {
    RunGrows(states, labels, k, k + 1);
    assert InvoiceGrows(states[k].db.invoices[i], states[k + 1].db.invoices[i]);
  }

  function StatusAt(s: State, i: nat): Option<InvoiceStatus> {
    if i < |s.db.invoices| then Some(s.db.invoices[i].status) else None
  }

  /** How often the status of invoice `i` changes in the run, after its creation. */
  function StatusChanges(states: seq<State>, i: nat): nat {
    if |states| <= 1 then 0
    else
      var n := |states| - 1;
      StatusChanges(states[..n], i)
      + (if StatusAt(states[n - 1], i).Some? && StatusAt(states[n - 1], i) != StatusAt(states[n], i) then 1 else 0)
  }

  lemma {:induction false} ChangesBoundedByRank(states: seq<State>, labels: seq<Label>, i: nat)
    requires IsRun(states, labels)
    ensures match StatusAt(states[|labels|], i)
            case None => StatusChanges(states, i) == 0
            case Some(st) => st != PartiallyPaid && StatusChanges(states, i) <= Rank(st)
  {
    var n := |labels|;
    if n > 0 {
      assert IsRun(states[..n], labels[..n - 1]);
      ChangesBoundedByRank(states[..n], labels[..n - 1], i);
      RunInv(states, labels, n);
      RunGrows(states, labels, n - 1, n);
      if i < |states[n - 1].db.invoices| {
        StatusWritesClimb(states, labels, n - 1, i);
      } else if i < |states[n].db.invoices| {
        assert InvoiceOk(states[n].db.invoices[i]);
      }
    }
  }

  /** No invoice ever changes status more than five times. */
  lemma AtMostFiveChanges(states: seq<State>, labels: seq<Label>, i: nat)
    requires IsRun(states, labels)
    ensures StatusChanges(states, i) <= 5
  {
    ChangesBoundedByRank(states, labels, i);
  }

  // ---------- dispatched events ----------

  function Is(e: Event): Event -> int {
    (x: Event) => if x == e then 1 else 0
  }

  function Owes(e: Event): Handler -> int {
    (h: Handler) => if h.Dispatching? then Sum(h.events, Is(e)) else 0
  }

  /** Times event `e` has been dispatched. */
  function Dispatched(s: State, e: Event): int {
    Sum(s.log, Is(e))
  }

  /** Times it has been dispatched or some handler is about to dispatch it. */
  function Owed(s: State, e: Event): int {
    Dispatched(s, e) + Sum(s.handlers, Owes(e))
  }

  lemma OwedAtLeastDispatched(s: State, e: Event)
    ensures 0 <= Dispatched(s, e) <= Owed(s, e)
  {
    SumNonnegative(s.log, Is(e));
    forall h | 0 <= h < |s.handlers| ensures Owes(e)(s.handlers[h]) >= 0 {
      if s.handlers[h].Dispatching? { SumNonnegative(s.handlers[h].events, Is(e)); }
    }
    SumNonnegative(s.handlers, Owes(e));
  }

  lemma {:induction false} OverdueEventsOnce(invoices: seq<Invoice>, now: int, e: Event)
    ensures Sum(OverdueEvents(invoices, now), Is(e)) ==
            if e.kind == InvoiceOverdue && e.subject < |invoices| && FallsOverdue(invoices[e.subject], now)
            then 1 else 0
  {
    if invoices != [] {
      var n := |invoices| - 1;
      OverdueEventsOnce(invoices[..n], now, e);
      var last := if FallsOverdue(invoices[n], now) then [Event(InvoiceOverdue, n)] else [];
      SumAppend(OverdueEvents(invoices[..n], now), last, Is(e));
      SumOne(Event(InvoiceOverdue, n), Is(e));
    }
  }

  /** How many dispatches of `e` a step adds to what is owed. */
  ghost function Adds(s: State, l: Label, e: Event): int
    requires Enabled(s, l)
  {
    match l
    case CreateInvoice(_, _, _, _, _, _) => Is(e)(Event(InvoiceCreated, |s.db.invoices|))
    case SendInvoice(_, id) => Is(e)(Event(InvoiceSent, id))
    case CancelInvoice(_, id) => Is(e)(Event(InvoiceCancelled, id))
    case OverdueScan => Sum(OverdueEvents(s.db.invoices, s.now), Is(e))
    case IntentFailed(_, row) => Is(e)(Event(PaymentFailed, row))
    case Dispatch(h) =>
      if s.handlers[h].SuccessRecorded? then Is(e)(Event(PaymentSucceeded, s.handlers[h].payment)) else 0
    case WriteStatus(h) =>
      var c := s.handlers[h];
      if c.prev != Paid && c.next == Paid then Is(e)(Event(InvoicePaid, c.invoice)) else 0
    case _ => 0
  }

  lemma ContinueOwes(s: State, h: nat, db: Tables, x: Handler, e: Event)
    requires At(s, h)
    ensures Owed(Continue(s, h, db, x), e) == Owed(s, e) - Owes(e)(s.handlers[h]) + Owes(e)(x)
  {
    SumUpdate(s.handlers, h, x, Owes(e));
  }

  lemma SpawnOwes(s: State, db: Tables, x: Handler, e: Event)
    ensures Owed(Spawn(s, db, x), e) == Owed(s, e) + Owes(e)(x)
  {
    SumPush(s.handlers, x, Owes(e));
  }

  lemma DispatchOwes(s: State, h: nat, e: Event)
    requires Enabled(s, Dispatch(h))
    ensures Owed(Step(s, Dispatch(h)), e) == Owed(s, e) + Adds(s, Dispatch(h), e)
  {
    match s.handlers[h]
    case SuccessRecorded(p, i) =>
      ContinueOwes(s, h, s.db, SuccessAnnounced(p, i), e);
      SumPush(s.log, Event(PaymentSucceeded, p), Is(e));
    case Dispatching(events) =>
      ContinueOwes(s, h, s.db, Dispatching(events[1..]), e);
      SumPush(s.log, events[0], Is(e));
      assert events == [events[0]] + events[1..];
      SumAppend([events[0]], events[1..], Is(e));
      SumOne(events[0], Is(e));
  }

  lemma SpawnedOwes(s: State, l: Label, e: Event)
    requires Enabled(s, l) && |Step(s, l).handlers| > |s.handlers|
    ensures Owed(Step(s, l), e) == Owed(s, e) + Adds(s, l, e)
  {
    var t := Step(s, l);
    var x := t.handlers[|s.handlers|];
    SpawnOwes(s, t.db, x, e);
    if x.Dispatching? && |x.events| == 1 { SumOne(x.events[0], Is(e)); }
  }

  lemma AbortOwes(s: State, h: nat, e: Event)
    requires At(s, h)
    ensures Owed(Step(s, Abort(h)), e) <= Owed(s, e)
  {
    ContinueOwes(s, h, s.db, Done, e);
    if s.handlers[h].Dispatching? { SumNonnegative(s.handlers[h].events, Is(e)); }
  }

  predicate Moves(l: Label) {
    l.CommitEdit? || l.InsertCheckout? || l.StoreSession? || l.FinishRefund? || l.Snapshot? || l.WriteStatus?
  }

  lemma MovedOwes(s: State, l: Label, e: Event)
    requires Enabled(s, l) && Moves(l)
    ensures Owed(Step(s, l), e) == Owed(s, e) + Adds(s, l, e)
  {
    var t := Step(s, l);
    var x := t.handlers[l.h];
    ContinueOwes(s, l.h, t.db, x, e);
    if x.Dispatching? { SumOne(x.events[0], Is(e)); }
  }

  lemma StepOwes(s: State, l: Label, e: Event)
    requires Enabled(s, l)
    ensures if l.Abort? then Owed(Step(s, l), e) <= Owed(s, e)
            else Owed(Step(s, l), e) == Owed(s, e) + Adds(s, l, e)
  {
    if l.Dispatch? {
      DispatchOwes(s, l.h, e);
    } else if l.Abort? {
      AbortOwes(s, l.h, e);
    } else if Moves(l) {
      MovedOwes(s, l, e);
    } else if !l.Tick? {
      SpawnedOwes(s, l, e);
    }
  }

  predicate OneShot(kind: EventKind) {
    kind in {InvoiceSent, InvoiceOverdue, InvoiceCancelled}
  }

  /** The status a one-shot event reports. */
  function Reports(kind: EventKind): InvoiceStatus
    requires OneShot(kind)
    ensures Reports(kind) != PartiallyPaid
  {
    match kind
    case InvoiceSent => Sent
    case InvoiceOverdue => Overdue
    case _ => Cancelled
  }

  predicate Reached(s: State, i: nat, status: InvoiceStatus)
    requires status != PartiallyPaid
  {
    i < |s.db.invoices| && s.db.invoices[i].status != PartiallyPaid
    && Rank(s.db.invoices[i].status) >= Rank(status)
  }

  /** A step adds a one-shot event only when it takes the invoice into the status reported. */
  lemma AddsOneShot(s: State, l: Label, kind: EventKind, i: nat)
    requires Enabled(s, l) && OneShot(kind) && Inv(s)
    ensures Adds(s, l, Event(kind, i)) in {0, 1}
    ensures Adds(s, l, Event(kind, i)) == 1 ==>
              !Reached(s, i, Reports(kind)) && StatusAt(Step(s, l), i) == Some(Reports(kind))
  {
    if l.OverdueScan? { OverdueEventsOnce(s.db.invoices, s.now, Event(kind, i)); }
  }

  lemma ReachedStays(s: State, l: Label, i: nat, status: InvoiceStatus)
    requires Enabled(s, l) && Inv(s) && status != PartiallyPaid && Reached(s, i, status)
    ensures Reached(Step(s, l), i, status)
  {
    StepInvoiceGrows(s, l, i);
  }

  function AtMost(s: State, kind: EventKind, i: nat): int
    requires OneShot(kind)
  {
    if Reached(s, i, Reports(kind)) then 1 else 0
  }

  lemma StepOwedOnce(s: State, l: Label, kind: EventKind, i: nat)
    requires Enabled(s, l) && OneShot(kind) && Inv(s)
    requires Owed(s, Event(kind, i)) <= AtMost(s, kind, i)
    ensures Owed(Step(s, l), Event(kind, i)) <= AtMost(Step(s, l), kind, i)
  {
    StepOwes(s, l, Event(kind, i));
    AddsOneShot(s, l, kind, i);
    if Reached(s, i, Reports(kind)) { ReachedStays(s, l, i, Reports(kind)); }
  }

  lemma {:induction false} OwedOnce(states: seq<State>, labels: seq<Label>, k: nat, kind: EventKind, i: nat)
    requires IsRun(states, labels) && k < |states| && OneShot(kind)
    ensures Owed(states[k], Event(kind, i)) <= AtMost(states[k], kind, i)
  {
    if k > 0 {
      OwedOnce(states, labels, k - 1, kind, i);
      RunInv(states, labels, k - 1);
      StepOwedOnce(states[k - 1], labels[k - 1], kind, i);
    }
  }

  /** invoice.sent, invoice.overdue and invoice.cancelled are each dispatched at most once per
      invoice, in every run. */
  lemma DispatchedAtMostOnce(states: seq<State>, labels: seq<Label>, k: nat, kind: EventKind, i: nat)
    requires IsRun(states, labels) && k < |states| && OneShot(kind)
    ensures Dispatched(states[k], Event(kind, i)) <= 1
    ensures Dispatched(states[k], Event(kind, i)) == 1 ==> Reached(states[k], i, Reports(kind))
  {
    OwedOnce(states, labels, k, kind, i);
    OwedAtLeastDispatched(states[k], Event(kind, i));
  }

  // ---------- invoice.paid ----------

  /** A handler past an early snapshot of `i`: it will write `paid` and announce it. */
  predicate WillPay(h: Handler, i: nat) {
    h.TransitionDecided? && h.invoice == i && h.prev != Paid && h.next == Paid
  }

  function WillPayCount(i: nat): Handler -> int {
    (h: Handler) => if WillPay(h, i) then 1 else 0
  }

  function IsInvoice(i: nat): nat -> int {
    (x: nat) => if x == i then 1 else 0
  }

  function PaidEvent(i: nat): Event { Event(InvoicePaid, i) }

  /** Snapshots of `i` that decided `paid` before it was paid. */
  function EarlySnapshots(s: State, i: nat): int {
    Sum(s.early, IsInvoice(i))
  }

  function Deciding(s: State, i: nat): int {
    Sum(s.handlers, WillPayCount(i))
  }

  lemma SnapshotDeciding(s: State, h: nat, i: nat)
    requires Enabled(s, Snapshot(h))
    ensures var t := Step(s, Snapshot(h));
            Deciding(t, i) == Deciding(s, i) + EarlySnapshots(t, i) - EarlySnapshots(s, i)
  {
    var t := Step(s, Snapshot(h));
    SumUpdate(s.handlers, h, t.handlers[h], WillPayCount(i));
    SumPush(s.early, s.handlers[h].invoice, IsInvoice(i));
  }

  /** Handlers that stop deciding in a step other than a snapshot. */
  function Leaves(s: State, l: Label, i: nat): int {
    if (l.WriteStatus? || l.Abort?) && At(s, l.h) then WillPayCount(i)(s.handlers[l.h]) else 0
  }

  predicate Spawns(l: Label) {
    !Moves(l) && !l.Tick? && !l.Dispatch? && !l.Abort?
  }

  lemma SpawnedDeciding(s: State, l: Label, i: nat)
    requires Enabled(s, l) && Spawns(l)
    ensures Deciding(Step(s, l), i) == Deciding(s, i) && Step(s, l).early == s.early
  {
    SumPush(s.handlers, Step(s, l).handlers[|s.handlers|], WillPayCount(i));
  }

  lemma MovedDeciding(s: State, l: Label, i: nat)
    requires Enabled(s, l) && (Moves(l) || l.Dispatch? || l.Abort?) && !l.Snapshot?
    ensures Deciding(Step(s, l), i) == Deciding(s, i) - Leaves(s, l, i) && Step(s, l).early == s.early
  {
    SumUpdate(s.handlers, l.h, Step(s, l).handlers[l.h], WillPayCount(i));
  }

  lemma StepDeciding(s: State, l: Label, i: nat)
    requires Enabled(s, l) && !l.Snapshot?
    ensures Deciding(Step(s, l), i) == Deciding(s, i) - Leaves(s, l, i)
    ensures EarlySnapshots(Step(s, l), i) == EarlySnapshots(s, i)
  {
    if Spawns(l) {
      SpawnedDeciding(s, l, i);
    } else if !l.Tick? {
      MovedDeciding(s, l, i);
    }
  }

  ghost predicate PaidCounts(s: State, i: nat) {
    && Owed(s, PaidEvent(i)) + Deciding(s, i) <= EarlySnapshots(s, i)
    && (i !in s.aborted ==> Owed(s, PaidEvent(i)) + Deciding(s, i) == EarlySnapshots(s, i))
    && (Owed(s, PaidEvent(i)) >= 1 ==> StatusAt(s, i) == Some(Paid))
    && (i !in s.aborted && StatusAt(s, i) == Some(Paid) ==> Owed(s, PaidEvent(i)) >= 1)
  }

  predicate WritesPaid(s: State, l: Label, i: nat) {
    l.WriteStatus? && At(s, l.h) && WillPay(s.handlers[l.h], i)
  }

  lemma AddsPaid(s: State, l: Label, i: nat)
    requires Enabled(s, l)
    ensures Adds(s, l, PaidEvent(i)) == if WritesPaid(s, l, i) then 1 else 0
  {
    if l.OverdueScan? { OverdueEventsOnce(s.db.invoices, s.now, PaidEvent(i)); }
  }

  /** A step that makes an invoice paid is the status write of a handler past an early snapshot. */
  lemma BecomesPaid(s: State, l: Label, i: nat)
    requires Inv(s) && Enabled(s, l)
    ensures StatusAt(s, i) == Some(Paid) ==> StatusAt(Step(s, l), i) == Some(Paid)
    ensures StatusAt(s, i) != Some(Paid) ==> (StatusAt(Step(s, l), i) == Some(Paid) <==> WritesPaid(s, l, i))
  {
    StepKeepsInv(s, l);
    if i < |s.db.invoices| {
      assert InvoiceGrows(s.db.invoices[i], Step(s, l).db.invoices[i]);
    }
    if l.WriteStatus? {
      var h := s.handlers[l.h];
      assert HandlerOk(s.db, h);
      assert h.prev == Paid ==> StatusAt(s, h.invoice) == Some(Paid);
    }
  }

  lemma NoPaidEvent(x: Handler, i: nat)
    requires i !in Concerns(x)
    ensures Owes(PaidEvent(i))(x) == 0 && WillPayCount(i)(x) == 0
  {
    if x.Dispatching? {
      forall k | 0 <= k < |x.events| ensures Is(PaidEvent(i))(x.events[k]) == 0 {
        assert x.events[k].kind == InvoicePaid ==> x.events[k].subject in Concerns(x);
      }
      SumZero(x.events, Is(PaidEvent(i)));
    }
  }

  /** A handler that is not about invoice `i` takes nothing owed to it along when it ends early. */
  lemma AbortElsewhere(s: State, h: nat, i: nat)
    requires At(s, h) && i !in Concerns(s.handlers[h])
    ensures Owed(Step(s, Abort(h)), PaidEvent(i)) == Owed(s, PaidEvent(i))
    ensures Leaves(s, Abort(h), i) == 0
  {
    NoPaidEvent(s.handlers[h], i);
    ContinueOwes(s, h, s.db, Done, PaidEvent(i));
  }

  lemma SnapshotPaidCounts(s: State, h: nat, i: nat)
    requires Inv(s) && Enabled(s, Snapshot(h)) && PaidCounts(s, i)
    ensures PaidCounts(Step(s, Snapshot(h)), i)
  {
    StepOwes(s, Snapshot(h), PaidEvent(i));
    BecomesPaid(s, Snapshot(h), i);
    SnapshotDeciding(s, h, i);
  }

  lemma AbortPaidCounts(s: State, h: nat, i: nat)
    requires Inv(s) && Enabled(s, Abort(h)) && PaidCounts(s, i)
    ensures PaidCounts(Step(s, Abort(h)), i)
  {
    StepOwes(s, Abort(h), PaidEvent(i));
    BecomesPaid(s, Abort(h), i);
    StepDeciding(s, Abort(h), i);
    if i !in Concerns(s.handlers[h]) { AbortElsewhere(s, h, i); }
    OwedAtLeastDispatched(s, PaidEvent(i));
  }

  lemma StepPaidCounts(s: State, l: Label, i: nat)
    requires Inv(s) && Enabled(s, l) && PaidCounts(s, i)
    ensures PaidCounts(Step(s, l), i)
  {
    if l.Snapshot? {
      SnapshotPaidCounts(s, l.h, i);
    } else if l.Abort? {
      AbortPaidCounts(s, l.h, i);
    } else {
      StepOwes(s, l, PaidEvent(i));
      AddsPaid(s, l, i);
      BecomesPaid(s, l, i);
      StepDeciding(s, l, i);
      OwedAtLeastDispatched(s, PaidEvent(i));
    }
  }

  lemma {:induction false} RunPaidCounts(states: seq<State>, labels: seq<Label>, k: nat, i: nat)
    requires IsRun(states, labels) && k < |states|
    ensures PaidCounts(states[k], i)
  {
    if k > 0 {
      RunPaidCounts(states, labels, k - 1, i);
      RunInv(states, labels, k - 1);
      StepPaidCounts(states[k - 1], labels[k - 1], i);
    }
  }

  /** invoice.paid is never dispatched more often than handlers took a snapshot before the first
      write of `paid`, and only for a paid invoice. */
  lemma PaidDispatchBounded(states: seq<State>, labels: seq<Label>, k: nat, i: nat)
    requires IsRun(states, labels) && k < |states|
    ensures Dispatched(states[k], PaidEvent(i)) <= EarlySnapshots(states[k], i)
    ensures Dispatched(states[k], PaidEvent(i)) >= 1 ==> StatusAt(states[k], i) == Some(Paid)
  {
    RunPaidCounts(states, labels, k, i);
    OwedAtLeastDispatched(states[k], PaidEvent(i));
    SumNonnegative(states[k].handlers, WillPayCount(i));
  }

  /** Every handler with something to decide on or to announce about the invoice has run to its end. */
  predicate Settled(s: State, i: nat) {
    forall h | 0 <= h < |s.handlers| :: i !in Concerns(s.handlers[h])
  }

  lemma SettledOwesNothing(s: State, i: nat)
    requires Settled(s, i)
    ensures Owed(s, PaidEvent(i)) == Dispatched(s, PaidEvent(i)) && Deciding(s, i) == 0
  {
    forall h | 0 <= h < |s.handlers|
      ensures Owes(PaidEvent(i))(s.handlers[h]) == 0 && WillPayCount(i)(s.handlers[h]) == 0
    {
      NoPaidEvent(s.handlers[h], i);
    }
    SumZero(s.handlers, Owes(PaidEvent(i)));
    SumZero(s.handlers, WillPayCount(i));
  }

  lemma {:induction false} SumZero<T>(s: seq<T>, f: T -> int)
    requires forall k | 0 <= k < |s| :: f(s[k]) == 0
    ensures Sum(s, f) == 0
  {
    if s != [] { SumZero(s[..|s| - 1], f); }
  }

  /** Where no success handler of the invoice ended early and all have finished, invoice.paid was
      dispatched exactly once per early snapshot, and at least once for a paid invoice.  So it was
      dispatched exactly once if and only if exactly one handler took its snapshot before the
      invoice was paid.  What handlers of other invoices do, or leave undone, plays no part. */
  lemma PaidDispatchExactly(states: seq<State>, labels: seq<Label>, k: nat, i: nat)
    requires IsRun(states, labels) && k < |states| && i !in states[k].aborted && Settled(states[k], i)
    ensures Dispatched(states[k], PaidEvent(i)) == EarlySnapshots(states[k], i)
    ensures StatusAt(states[k], i) == Some(Paid) <==> Dispatched(states[k], PaidEvent(i)) >= 1
  {
    RunPaidCounts(states, labels, k, i);
    SettledOwesNothing(states[k], i);
  }

  /** No snapshot of the invoice falls between another handler's snapshot and status write of it. */
  ghost predicate NoOverlap(states: seq<State>, labels: seq<Label>, i: nat)
    requires IsRun(states, labels)
  {
    forall k, g | 0 <= k < |labels| && labels[k].Snapshot? && 0 <= g < |states[k].handlers|
      && states[k].handlers[labels[k].h].invoice == i ::
      !(states[k].handlers[g].TransitionDecided? && states[k].handlers[g].invoice == i)
  }

  lemma AloneStep(s: State, l: Label, i: nat)
    requires Enabled(s, l) && PaidCounts(s, i)
    requires Owed(s, PaidEvent(i)) + Deciding(s, i) <= 1
    requires l.Snapshot? && s.handlers[l.h].invoice == i ==> forall g | 0 <= g < |s.handlers| ::
               !(s.handlers[g].TransitionDecided? && s.handlers[g].invoice == i)
    ensures Owed(Step(s, l), PaidEvent(i)) + Deciding(Step(s, l), i) <= 1
  {
    if l.Snapshot? {
      AloneSnapshot(s, l.h, i);
    } else {
      StepOwes(s, l, PaidEvent(i));
      AddsPaid(s, l, i);
      StepDeciding(s, l, i);
    }
  }

  lemma {:induction false} AloneOwedOnce(states: seq<State>, labels: seq<Label>, k: nat, i: nat)
    requires IsRun(states, labels) && k < |states| && NoOverlap(states, labels, i)
    ensures Owed(states[k], PaidEvent(i)) + Deciding(states[k], i) <= 1
  {
    if k > 0 {
      AloneOwedOnce(states, labels, k - 1, i);
      RunPaidCounts(states, labels, k - 1, i);
      AloneStep(states[k - 1], labels[k - 1], i);
    }
  }

  /** A snapshot no deciding handler overlaps is early only when nothing is owed yet. */
  lemma AloneSnapshot(s: State, h: nat, i: nat)
    requires Enabled(s, Snapshot(h)) && PaidCounts(s, i)
    requires s.handlers[h].invoice == i ==> forall g | 0 <= g < |s.handlers| ::
               !(s.handlers[g].TransitionDecided? && s.handlers[g].invoice == i)
    ensures Owed(Step(s, Snapshot(h)), PaidEvent(i)) + Deciding(Step(s, Snapshot(h)), i)
            <= if Owed(s, PaidEvent(i)) + Deciding(s, i) > 1 then Owed(s, PaidEvent(i)) + Deciding(s, i) else 1
  {
    StepOwes(s, Snapshot(h), PaidEvent(i));
    SnapshotDeciding(s, h, i);
    SumPush(s.early, s.handlers[h].invoice, IsInvoice(i));
    if s.handlers[h].invoice == i {
      forall g | 0 <= g < |s.handlers| ensures WillPayCount(i)(s.handlers[g]) == 0 {}
      SumZero(s.handlers, WillPayCount(i));
      OwedAtLeastDispatched(s, PaidEvent(i));
    }
  }

  /** Where success handlers do not overlap on an invoice, invoice.paid is dispatched exactly once
      if it is paid and never otherwise. */
  lemma PaidDispatchedOnce(states: seq<State>, labels: seq<Label>, k: nat, i: nat)
    requires IsRun(states, labels) && k < |states| && NoOverlap(states, labels, i)
    requires i !in states[k].aborted && Settled(states[k], i)
    ensures Dispatched(states[k], PaidEvent(i)) == if StatusAt(states[k], i) == Some(Paid) then 1 else 0
  {
    AloneOwedOnce(states, labels, k, i);
    RunPaidCounts(states, labels, k, i);
    SettledOwesNothing(states[k], i);
    OwedAtLeastDispatched(states[k], PaidEvent(i));
  }

  // ---------- a payment that succeeded pays its invoice ----------

  /** The rows a success event takes are all for one invoice. */
  ghost predicate OneInvoicePerIntent(db: Tables, intent: string) {
    forall p, q | 0 <= p < |db.payments| && 0 <= q < |db.payments|
      && HasIntent(db.payments[p], intent) && HasIntent(db.payments[q], intent) ::
      db.payments[p].invoice == db.payments[q].invoice
  }

  ghost predicate IntentsApart(states: seq<State>, labels: seq<Label>)
    requires |labels| <= |states|
  {
    forall k | 0 <= k < |labels| && labels[k].IntentSucceeded? ::
      OneInvoicePerIntent(states[k].db, labels[k].intent)
  }

  predicate WorksOn(s: State, h: nat, i: nat) {
    && h < |s.handlers|
    && match s.handlers[h]
       case SuccessRecorded(_, j) => i == j
       case SuccessAnnounced(_, j) => i == j
       case TransitionDecided(_, j, _, next) => i == j && next == Paid
       case _ => false
  }

  /** The invoice is paid, some handler is on its way to make it so, or one ended early. */
  ghost predicate Settling(s: State, i: nat) {
    StatusAt(s, i) == Some(Paid) || i in s.aborted || exists h: nat :: WorksOn(s, h, i)
  }

  ghost predicate PaysSettle(s: State, i: nat) {
    (exists p: nat :: Pays(s.db, p, i)) ==> Settling(s, i)
  }

  /** The decision for every total, by the number of payments that stand succeeded: for a negative
      total two of them decide nothing. */
  lemma DecidesPaidExactly(states: seq<State>, labels: seq<Label>, k: nat, i: nat)
    requires IsRun(states, labels) && k < |states| && i < |states[k].db.invoices|
    ensures var total, count := states[k].db.invoices[i].money.total, Sum(states[k].db.payments, SucceededCount(i));
            Decide(total, AmountPaid(states[k].db, i)) ==
              if (if total > 0 then count >= 1 else total == 0 || count <= 1) then Some(Paid) else None
  {
    RunInv(states, labels, k);
    PaidIsWholeTotals(states[k].db, i);
    DecideCount(states[k].db.invoices[i].money.total, Sum(states[k].db.payments, SucceededCount(i)));
  }

  /** A handler at work on the invoice stays at work, is done with it, or ends early. */
  lemma WorkGoesOn(s: State, l: Label, h: nat, i: nat, p: nat)
    requires Inv(s) && Enabled(s, l) && WorksOn(s, h, i) && Pays(s.db, p, i)
    ensures Settling(Step(s, l), i)
  {
    var t := Step(s, l);
    if l.Snapshot? && l.h == h {
      PaysDecides(s.db, p, i);
      assert WorksOn(t, h, i);
    } else if l.Dispatch? && l.h == h {
      assert WorksOn(t, h, i);
    } else if l.WriteStatus? && l.h == h {
      assert HandlerOk(s.db, s.handlers[h]);
    } else if !(l.Abort? && l.h == h) {
      assert t.handlers[h] == s.handlers[h];
      assert WorksOn(t, h, i);
    }
  }

  /** Only a success event makes a payment stand succeeded, and its handler is for that invoice. */
  lemma SucceedsWithHandler(s: State, l: Label, p: nat)
    requires Enabled(s, l) && p < |s.db.payments| && p < |Step(s, l).db.payments|
    requires s.db.payments[p].status != Succeeded && Step(s, l).db.payments[p].status == Succeeded
    requires l.IntentSucceeded? ==> OneInvoicePerIntent(s.db, l.intent)
    ensures WorksOn(Step(s, l), |s.handlers|, Step(s, l).db.payments[p].invoice)
  {
    assert l.IntentSucceeded?;
  }

  lemma NewPaymentPending(s: State, l: Label, p: nat)
    requires Enabled(s, l) && |s.db.payments| <= p < |Step(s, l).db.payments|
    ensures Step(s, l).db.payments[p].status == Pending
  {
  }

  /** A payment newly succeeded comes with a handler for its invoice. */
  lemma NewlyPays(s: State, l: Label, p: nat, i: nat)
    requires Inv(s) && Enabled(s, l) && Pays(Step(s, l).db, p, i) && !Pays(s.db, p, i)
    requires l.IntentSucceeded? ==> OneInvoicePerIntent(s.db, l.intent)
    ensures Settling(Step(s, l), i)
  {
    if p < |s.db.payments| {
      StepGrows(s, l);
      assert PaymentGrows(s.db.payments[p], Step(s, l).db.payments[p]);
      assert PaymentOk(s.db, s.db.payments[p]);
      assert InvoiceGrows(s.db.invoices[i], Step(s, l).db.invoices[i]);
      SucceedsWithHandler(s, l, p);
    } else {
      NewPaymentPending(s, l, p);
    }
  }

  lemma StepPaysSettle(s: State, l: Label, i: nat)
    requires Inv(s) && Enabled(s, l) && PaysSettle(s, i)
    requires l.IntentSucceeded? ==> OneInvoicePerIntent(s.db, l.intent)
    ensures PaysSettle(Step(s, l), i)
  {
    var t := Step(s, l);
    forall p: nat | Pays(t.db, p, i) ensures Settling(t, i) {
      if !Pays(s.db, p, i) {
        NewlyPays(s, l, p, i);
      } else if h: nat :| WorksOn(s, h, i) {
        WorkGoesOn(s, l, h, i, p);
      } else {
        BecomesPaid(s, l, i);
      }
    }
  }

  lemma NextPaysSettle(states: seq<State>, labels: seq<Label>, k: nat, i: nat)
    requires IsRun(states, labels) && k < |labels| && IntentsApart(states, labels) && PaysSettle(states[k], i)
    ensures PaysSettle(states[k + 1], i)
  {
    RunInv(states, labels, k);
    StepPaysSettle(states[k], labels[k], i);
  }

  lemma {:induction false} RunPaysSettle(states: seq<State>, labels: seq<Label>, k: nat, i: nat)
    requires IsRun(states, labels) && k < |states| && IntentsApart(states, labels)
    ensures PaysSettle(states[k], i)
  {
    if k > 0 {
      RunPaysSettle(states, labels, k - 1, i);
      NextPaysSettle(states, labels, k - 1, i);
    }
  }

  /** What the ledger is for: once the success handlers of an invoice have finished, none of them
      early, an invoice for a nonnegative total with a payment that stands succeeded is paid.  This
      needs that no intent is shared by payments of two invoices. */
  lemma SucceededMeansPaid(states: seq<State>, labels: seq<Label>, k: nat, i: nat, p: nat)
    requires IsRun(states, labels) && k < |states| && IntentsApart(states, labels)
    requires i !in states[k].aborted && Settled(states[k], i)
    requires Pays(states[k].db, p, i)
    ensures states[k].db.invoices[i].status == Paid
  {
    RunPaysSettle(states, labels, k, i);
    forall h: nat ensures !WorksOn(states[k], h, i) {
      assert h < |states[k].handlers| ==> i !in Concerns(states[k].handlers[h]);
    }
  }
}
