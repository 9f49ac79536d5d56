/** The handlers as concurrent programs over the ledger.

    A handler is a program counter with its captured locals; one step runs one SQL
    statement, dispatches one event, or ends the handler early.  Steps of any number of
    handlers interleave.  A row is locked while a handler that selected it FOR UPDATE
    has not committed; a statement that writes the row waits for it. */
module LedgerSteps {
  import opened Wrappers
  import opened Money
  import opened Ledger
  import opened Sums

  datatype Handler =
    | Done
      // update: row selected FOR UPDATE and seen in draft
    | Editing(invoice: nat, row: Invoice)
      // create_checkout: status check passed; then payment row inserted
    | CheckoutLoaded(org: nat, invoice: nat, amount: int, currency: string)
    | CheckoutInserted(payment: nat)
      // refund: payment seen succeeded with an intent
    | RefundLoaded(payment: nat, partial: bool)
      // payment_intent.succeeded: rows updated; then payment.succeeded dispatched;
      // then status, total and sum read in one statement
    | SuccessRecorded(payment: nat, invoice: nat)
    | SuccessAnnounced(payment: nat, invoice: nat)
    | TransitionDecided(payment: nat, invoice: nat, prev: InvoiceStatus, next: InvoiceStatus)
      // events still to dispatch before returning
    | Dispatching(events: seq<Event>)

  /** `early` is a history variable: the invoices of the snapshots that decided `paid` having
      read a status other than `paid`.  `aborted` collects the invoices whose success handlers, or
      handlers about to announce them paid, ended early. */
  datatype State = State(
    db: Tables, handlers: seq<Handler>, log: seq<Event>, now: int, early: seq<nat>, aborted: set<nat>)

  /** `money` is what the columns store for the items and the rate. */
  datatype Label =
    | Tick(time: int)
    | CreateInvoice(org: nat, items: seq<LineItem>, rate: real, money: Amounts, currency: string, due: int)
    | SelectForEdit(org: nat, id: nat)
    | CommitEdit(h: nat, newItems: Option<seq<LineItem>>, newRate: Option<real>, money: Amounts,
                 newCurrency: Option<string>, newDue: Option<int>)
    | SendInvoice(org: nat, id: nat)
    | CancelInvoice(org: nat, id: nat)
    | ViewInvoice(org: nat, id: nat)
    | OverdueScan
    | LoadCheckout(org: nat, id: nat)
    | InsertCheckout(h: nat)
    | StoreSession(h: nat, session: string)
    | LoadRefund(org: nat, id: nat, partial: bool)
    | FinishRefund(h: nat)
    | IntentLinked(session: string, intent: string)
    | IntentSucceeded(intent: string, row: nat)
    | IntentFailed(intent: string, row: nat)
    | Dispatch(h: nat)
    | Snapshot(h: nat)
    | WriteStatus(h: nat)
    | Abort(h: nat)

  predicate Holds(s: State, h: nat, id: nat) {
    h < |s.handlers| && s.handlers[h].Editing? && s.handlers[h].invoice == id
  }

  ghost predicate Locked(s: State, id: nat) {
    exists h :: Holds(s, h, id)
  }

  predicate At(s: State, h: nat) {
    h < |s.handlers|
  }

  /** Items and rate of an edit; what it leaves absent comes from the row. */
  function EditedItems(row: Invoice, items: Option<seq<LineItem>>): seq<LineItem> {
    OrElse(items, row.items)
  }

  function Recomputed(row: Invoice, items: Option<seq<LineItem>>, rate: Option<real>): Option<Amounts> {
    Store(EditedItems(row, items), OrElse(rate, Rate(row.money.taxRate)))
  }

  ghost predicate Enabled(s: State, l: Label) {
    match l
    case Tick(time) => time >= s.now
    case CreateInvoice(_, items, rate, money, _, _) => Store(items, rate) == Some(money)
    case SelectForEdit(org, id) => CanEdit(s.db, org, id) && !Locked(s, id)
    case CommitEdit(h, items, rate, money, _, _) =>
      At(s, h) && s.handlers[h].Editing? && s.handlers[h].invoice < |s.db.invoices|
      && Recomputed(s.handlers[h].row, items, rate) == Some(money)
    case SendInvoice(org, id) => CanSend(s.db, org, id) && !Locked(s, id)
    case CancelInvoice(org, id) => CanCancel(s.db, org, id) && !Locked(s, id)
    case ViewInvoice(org, id) => Owned(s.db, org, id) && !Locked(s, id)
    case OverdueScan =>
      forall i: nat | i < |s.db.invoices| && FallsOverdue(s.db.invoices[i], s.now) :: !Locked(s, i)
    case LoadCheckout(org, id) => Owned(s.db, org, id) && CanPay(s.db.invoices[id])
    case InsertCheckout(h) => At(s, h) && s.handlers[h].CheckoutLoaded?
    case StoreSession(h, _) => At(s, h) && s.handlers[h].CheckoutInserted? && s.handlers[h].payment < |s.db.payments|
    case LoadRefund(org, id, _) =>
      id < |s.db.payments| && s.db.payments[id].org == org
      && s.db.payments[id].status == Succeeded && s.db.payments[id].intent.Some?
    case FinishRefund(h) => At(s, h) && s.handlers[h].RefundLoaded? && s.handlers[h].payment < |s.db.payments|
    case IntentLinked(_, _) => true
    case IntentSucceeded(intent, row) => ReturnedRow(s.db, intent, row)
    case IntentFailed(intent, row) => ReturnedRow(s.db, intent, row)
    case Dispatch(h) =>
      At(s, h) && (s.handlers[h].SuccessRecorded? || (s.handlers[h].Dispatching? && s.handlers[h].events != []))
    case Snapshot(h) => At(s, h) && s.handlers[h].SuccessAnnounced? && s.handlers[h].invoice < |s.db.invoices|
    case WriteStatus(h) =>
      At(s, h) && s.handlers[h].TransitionDecided? && s.handlers[h].invoice < |s.db.invoices|
      && !Locked(s, s.handlers[h].invoice)
    case Abort(h) => At(s, h)
  }

  function Spawn(s: State, db: Tables, x: Handler): State {
    s.(db := db, handlers := s.handlers + [x])
  }

  function Continue(s: State, h: nat, db: Tables, x: Handler): State
    requires At(s, h)
  {
    s.(db := db, handlers := s.handlers[h := x])
  }

  function DecidedNext(s: State, h: nat): Option<InvoiceStatus>
    requires At(s, h) && s.handlers[h].SuccessAnnounced? && s.handlers[h].invoice < |s.db.invoices|
  {
    var i := s.handlers[h].invoice;
    Decide(s.db.invoices[i].money.total, AmountPaid(s.db, i))
  }

  function SnapshotStep(s: State, h: nat): State
    requires At(s, h) && s.handlers[h].SuccessAnnounced? && s.handlers[h].invoice < |s.db.invoices|
  {
    var i, prev := s.handlers[h].invoice, s.db.invoices[s.handlers[h].invoice].status;
    match DecidedNext(s, h)
    case None => Continue(s, h, s.db, Done)
    case Some(next) =>
      Continue(s, h, s.db, TransitionDecided(s.handlers[h].payment, i, prev, next))
        .(early := if prev != Paid && next == Paid then s.early + [i] else s.early)
  }

  function DispatchStep(s: State, h: nat): State
    requires At(s, h) && (s.handlers[h].SuccessRecorded? || (s.handlers[h].Dispatching? && s.handlers[h].events != []))
  {
    match s.handlers[h]
    case SuccessRecorded(p, i) =>
      Continue(s, h, s.db, SuccessAnnounced(p, i)).(log := s.log + [Event(PaymentSucceeded, p)])
    case Dispatching(events) =>
      Continue(s, h, s.db, Dispatching(events[1..])).(log := s.log + [events[0]])
  }

  /** The invoices a handler has still to decide on or to announce paid. */
  function Concerns(x: Handler): set<nat> {
    match x
    case SuccessRecorded(_, i) => {i}
    case SuccessAnnounced(_, i) => {i}
    case TransitionDecided(_, i, _, _) => {i}
    case Dispatching(events) => set e | e in events && e.kind == InvoicePaid :: e.subject
    case _ => {}
  }

  function Step(s: State, l: Label): State
    requires Enabled(s, l)
  {
    match l
    case Tick(time) => s.(now := time)
    case CreateInvoice(org, items, _, money, currency, due) =>
      Spawn(s, InsertInvoice(s.db, org, items, money, currency, due),
            Dispatching([Event(InvoiceCreated, |s.db.invoices|)]))
    case SelectForEdit(org, id) => Spawn(s, s.db, Editing(id, s.db.invoices[id]))
    case CommitEdit(h, items, _, money, currency, due) =>
      var c := s.handlers[h];
      Continue(s, h, Edit(s.db, c.invoice, EditedItems(c.row, items), money, currency, due), Done)
    case SendInvoice(org, id) => Spawn(s, Send(s.db, id, s.now), Dispatching([Event(InvoiceSent, id)]))
    case CancelInvoice(org, id) => Spawn(s, Cancel(s.db, id), Dispatching([Event(InvoiceCancelled, id)]))
    case ViewInvoice(org, id) => Spawn(s, MarkViewed(s.db, id, s.now), Done)
    case OverdueScan =>
      Spawn(s, MarkOverdue(s.db, s.now), Dispatching(OverdueEvents(s.db.invoices, s.now)))
    case LoadCheckout(org, id) =>
      Spawn(s, s.db, CheckoutLoaded(org, id, s.db.invoices[id].money.total, s.db.invoices[id].currency))
    case InsertCheckout(h) =>
      var c := s.handlers[h];
      Continue(s, h, InsertPayment(s.db, c.org, c.invoice, c.amount, c.currency), CheckoutInserted(|s.db.payments|))
    case StoreSession(h, session) => Continue(s, h, SetSession(s.db, s.handlers[h].payment, session), Done)
    case LoadRefund(org, id, partial) => Spawn(s, s.db, RefundLoaded(id, partial))
    case FinishRefund(h) =>
      var status := if s.handlers[h].partial then PartiallyRefunded else Refunded;
      Continue(s, h, SetPaymentStatus(s.db, s.handlers[h].payment, status), Done)
    case IntentLinked(session, intent) => Spawn(s, LinkIntent(s.db, session, intent), Done)
    case IntentSucceeded(intent, row) =>
      Spawn(s, RecordSuccess(s.db, intent, s.now), SuccessRecorded(row, s.db.payments[row].invoice))
    case IntentFailed(intent, row) =>
      Spawn(s, RecordFailure(s.db, intent), Dispatching([Event(PaymentFailed, row)]))
    case Dispatch(h) => DispatchStep(s, h)
    case Snapshot(h) => SnapshotStep(s, h)
    case WriteStatus(h) =>
      var c := s.handlers[h];
      Continue(s, h, WriteInvoiceStatus(s.db, c.invoice, c.next, s.now),
               if c.prev != Paid && c.next == Paid then Dispatching([Event(InvoicePaid, c.invoice)]) else Done)
    case Abort(h) => Continue(s, h, s.db, Done).(aborted := s.aborted + Concerns(s.handlers[h]))
  }

  predicate Initial(s: State) {
    s.db == Tables([], []) && s.handlers == [] && s.log == [] && s.early == [] && s.aborted == {}
  }

  // ---------- the invariant ----------

  predicate InvoiceOk(row: Invoice) {
    && row.status != PartiallyPaid
    && (row.status == Draft ==> row.sentAt == None)
    && (row.status in {Sent, Viewed, Overdue, Paid} ==> row.sentAt.Some?)
    && (row.status == Viewed ==> row.viewedAt.Some?)
    && (row.status == Paid <==> row.paidAt.Some?)
    && Balanced(row.money)
  }

  /** The invoice has left draft for good and is for exactly this amount. */
  predicate Billed(db: Tables, invoice: nat, org: nat, amount: int, currency: string) {
    && invoice < |db.invoices|
    && var row := db.invoices[invoice];
       row.status != Draft && row.sentAt.Some?
       && row.org == org && row.money.total == amount && row.currency == currency
  }

  predicate PaymentOk(db: Tables, p: Payment) {
    && Billed(db, p.invoice, p.org, p.amount, p.currency)
    && (p.status == Succeeded ==> p.paidAt.Some? && p.intent.Some?)
  }

  /** Payment `p` has been paid and is for this invoice. */
  predicate PaidBy(db: Tables, p: nat, invoice: nat) {
    p < |db.payments| && db.payments[p].invoice == invoice && db.payments[p].paidAt.Some?
  }

  predicate HandlerOk(db: Tables, h: Handler) {
    match h
    case Editing(i, row) => i < |db.invoices| && db.invoices[i] == row && row.status == Draft
    case CheckoutLoaded(org, i, amount, currency) => Billed(db, i, org, amount, currency)
    case CheckoutInserted(p) => p < |db.payments|
    case RefundLoaded(p, _) => p < |db.payments| && db.payments[p].paidAt.Some?
    case SuccessRecorded(p, i) => PaidBy(db, p, i)
    case SuccessAnnounced(p, i) => PaidBy(db, p, i)
    case TransitionDecided(p, i, prev, next) =>
      PaidBy(db, p, i) && next == Paid
      && (prev == Paid ==> i < |db.invoices| && db.invoices[i].status == Paid)
    case _ => true
  }

  ghost predicate InvoicesOk(db: Tables) {
    forall i | 0 <= i < |db.invoices| :: InvoiceOk(db.invoices[i])
  }

  ghost predicate PaymentsOk(db: Tables) {
    forall p | 0 <= p < |db.payments| :: PaymentOk(db, db.payments[p])
  }

  ghost predicate HandlersOk(s: State) {
    forall h | 0 <= h < |s.handlers| :: HandlerOk(s.db, s.handlers[h])
  }

  /** No two handlers hold the lock of one row. */
  ghost predicate LocksExclusive(s: State) {
    forall g, h, id | Holds(s, g, id) && Holds(s, h, id) :: g == h
  }

  ghost predicate HasPaidPayment(db: Tables, invoice: nat) {
    exists p :: PaidBy(db, p, invoice)
  }

  ghost predicate PaidHavePayments(db: Tables) {
    forall i: nat | i < |db.invoices| && db.invoices[i].status == Paid :: HasPaidPayment(db, i)
  }

  ghost predicate Inv(s: State) {
    InvoicesOk(s.db) && PaymentsOk(s.db) && HandlersOk(s) && LocksExclusive(s) && PaidHavePayments(s.db)
  }

  // ---------- full payments ----------

  /** Whatever has been refunded or has failed, the succeeded payments of an invoice add up to a
      whole number of its totals. */
  lemma PaidIsWholeTotals(db: Tables, i: nat)
    requires PaymentsOk(db) && i < |db.invoices|
    ensures AmountPaid(db, i) == Sum(db.payments, SucceededCount(i)) * db.invoices[i].money.total
    ensures Sum(db.payments, SucceededCount(i)) >= 0
  {
    forall p | 0 <= p < |db.payments|
      ensures SucceededAmount(i)(db.payments[p]) == SucceededCount(i)(db.payments[p]) * db.invoices[i].money.total
    {
      assert PaymentOk(db, db.payments[p]);
    }
    SumScaled(db.payments, SucceededAmount(i), SucceededCount(i), db.invoices[i].money.total);
    SumNonnegative(db.payments, SucceededCount(i));
  }

  lemma WholeTotalsDecide(k: int, total: int)
    requires k >= 0
    ensures Decide(total, k * total) != Some(PartiallyPaid)
  {
    if total > 0 && k >= 1 {
      assert k * total >= 1 * total;
    } else if total <= 0 {
      assert k * total <= 0;
    }
  }

  /** So the snapshot never decides `partially_paid`, for a total of any sign. */
  lemma NeverPartial(db: Tables, i: nat)
    requires PaymentsOk(db) && i < |db.invoices|
    ensures Decide(db.invoices[i].money.total, AmountPaid(db, i)) in {None, Some(Paid)}
  {
    PaidIsWholeTotals(db, i);
    WholeTotalsDecide(Sum(db.payments, SucceededCount(i)), db.invoices[i].money.total);
  }

  /** Payment `p` is for invoice `i`, which does not ask for a negative amount, and stands succeeded. */
  predicate Pays(db: Tables, p: nat, i: nat) {
    && p < |db.payments| && i < |db.invoices|
    && db.payments[p].invoice == i && db.payments[p].status == Succeeded
    && db.invoices[i].money.total >= 0
  }

  /** While a payment stands succeeded the snapshot decides `paid`. */
  lemma PaysDecides(db: Tables, p: nat, i: nat)
    requires PaymentsOk(db) && Pays(db, p, i)
    ensures Decide(db.invoices[i].money.total, AmountPaid(db, i)) == Some(Paid)
  {
    PaidIsWholeTotals(db, i);
    SumNonnegative(db.payments, SucceededCount(i));
    assert SucceededCount(i)(db.payments[p]) == 1;
    AtLeastOnce(Sum(db.payments, SucceededCount(i)), db.invoices[i].money.total);
  }

  lemma AtLeastOnce(count: int, total: int)
    requires count >= 1 && total >= 0
    ensures count * total >= total
  {
  }

  /** Payment `p` is for the invoice and stands succeeded. */
  predicate Stands(db: Tables, p: nat, i: nat) {
    p < |db.payments| && db.payments[p].invoice == i && db.payments[p].status == Succeeded
  }

  lemma CountPositive(db: Tables, i: nat)
    ensures Sum(db.payments, SucceededCount(i)) >= 1 <==> exists p: nat :: Stands(db, p, i)
  {
    SumNonnegative(db.payments, SucceededCount(i));
    if p: nat :| Stands(db, p, i) {
      assert SucceededCount(i)(db.payments[p]) == 1;
    } else {
      forall p | 0 <= p < |db.payments| ensures SucceededCount(i)(db.payments[p]) == 0 {
        assert !Stands(db, p, i);
      }
      SumEqual(db.payments, db.payments, SucceededCount(i), (x: Payment) => 0);
      SumNothing(db.payments);
    }
  }

  lemma {:induction false} SumNothing(payments: seq<Payment>)
    ensures Sum(payments, (x: Payment) => 0) == 0
  {
    if payments != [] { SumNothing(payments[..|payments| - 1]); }
  }

  /** For a positive total the decision is paid exactly when some payment stands succeeded, and
      otherwise there is none. */
  lemma DecidesIffSucceeded(db: Tables, i: nat)
    requires PaymentsOk(db) && i < |db.invoices| && db.invoices[i].money.total > 0
    ensures Decide(db.invoices[i].money.total, AmountPaid(db, i))
            == if exists p: nat :: Stands(db, p, i) then Some(Paid) else None
  {
    PaidIsWholeTotals(db, i);
    CountPositive(db, i);
    DecideCount(db.invoices[i].money.total, Sum(db.payments, SucceededCount(i)));
  }

  lemma DecideCount(total: int, count: int)
    requires count >= 0
    ensures Decide(total, count * total) ==
              if (if total > 0 then count >= 1 else total == 0 || count <= 1) then Some(Paid) else None
  {
    if total > 0 && count >= 1 {
      AtLeastOnce(count, total);
    } else if total < 0 && count >= 2 {
      AtLeastOnce(count - 1, -total);
      assert count * total == total - (count - 1) * -total;
    }
  }

  // ---------- preservation ----------

  lemma CommitGrows(s: State, l: Label, i: nat)
    requires Inv(s) && Enabled(s, l) && i < |s.db.invoices| && l.CommitEdit?
    ensures i < |Step(s, l).db.invoices| && InvoiceGrows(s.db.invoices[i], Step(s, l).db.invoices[i])
  {
    assert InvoiceOk(s.db.invoices[i]);
    assert HandlerOk(s.db, s.handlers[l.h]);
  }

  lemma WriteGrows(s: State, h: nat, i: nat)
    requires Inv(s) && Enabled(s, WriteStatus(h)) && i < |s.db.invoices|
    ensures i < |Step(s, WriteStatus(h)).db.invoices|
    ensures InvoiceGrows(s.db.invoices[i], Step(s, WriteStatus(h)).db.invoices[i])
  {
    assert InvoiceOk(s.db.invoices[i]);
    assert HandlerOk(s.db, s.handlers[h]);
    assert PaymentOk(s.db, s.db.payments[s.handlers[h].payment]);
  }

  lemma StepInvoiceGrows(s: State, l: Label, i: nat)
    requires Inv(s) && Enabled(s, l) && i < |s.db.invoices|
    ensures i < |Step(s, l).db.invoices| && InvoiceGrows(s.db.invoices[i], Step(s, l).db.invoices[i])
  {
    if l.CommitEdit? {
      CommitGrows(s, l, i);
    } else if l.WriteStatus? {
      WriteGrows(s, l.h, i);
    } else {
      assert InvoiceOk(s.db.invoices[i]);
    }
  }

  lemma StepPaymentGrows(s: State, l: Label, p: nat)
    requires Inv(s) && Enabled(s, l) && p < |s.db.payments|
    ensures p < |Step(s, l).db.payments| && PaymentGrows(s.db.payments[p], Step(s, l).db.payments[p])
  {
  }

  /** One step: statuses climb, money out of draft is frozen, timestamps are written once. */
  lemma StepGrows(s: State, l: Label)
    requires Inv(s) && Enabled(s, l)
    ensures Grows(s.db, Step(s, l).db)
  {
    var t := Step(s, l);
    assert |s.db.invoices| <= |t.db.invoices| && |s.db.payments| <= |t.db.payments|;
    forall i | 0 <= i < |s.db.invoices| ensures InvoiceGrows(s.db.invoices[i], t.db.invoices[i]) {
      StepInvoiceGrows(s, l, i);
    }
    forall p | 0 <= p < |s.db.payments| ensures PaymentGrows(s.db.payments[p], t.db.payments[p]) {
      StepPaymentGrows(s, l, p);
    }
  }

  lemma EditBalanced(s: State, l: Label)
    requires Inv(s) && Enabled(s, l) && l.CommitEdit?
    ensures Balanced(l.money) && HandlerOk(s.db, s.handlers[l.h])
  {
    var row := s.handlers[l.h].row;
    StoredWithinACent(EditedItems(row, l.newItems), OrElse(l.newRate, Rate(row.money.taxRate)));
  }

  lemma StepInvoicesOk(s: State, l: Label)
    requires Inv(s) && Enabled(s, l)
    ensures InvoicesOk(Step(s, l).db)
  {
    match l
    case CreateInvoice(_, items, rate, _, _, _) => StoredWithinACent(items, rate);
    case CommitEdit(h, items, rate, _, _, _) => EditBalanced(s, l);
    case WriteStatus(h) =>
      assert HandlerOk(s.db, s.handlers[h]);
      assert PaymentOk(s.db, s.db.payments[s.handlers[h].payment]);
    case _ =>
  }

  lemma BilledGrows(a: Tables, b: Tables, invoice: nat, org: nat, amount: int, currency: string)
    requires Grows(a, b) && Billed(a, invoice, org, amount, currency)
    ensures Billed(b, invoice, org, amount, currency)
  {
    assert InvoiceGrows(a.invoices[invoice], b.invoices[invoice]);
  }

  lemma OldPaymentOk(s: State, l: Label, p: nat)
    requires Inv(s) && Enabled(s, l) && p < |s.db.payments|
    ensures p < |Step(s, l).db.payments| && PaymentOk(Step(s, l).db, Step(s, l).db.payments[p])
  {
    StepGrows(s, l);
    var was := s.db.payments[p];
    assert PaymentOk(s.db, was) && PaymentGrows(was, Step(s, l).db.payments[p]);
    BilledGrows(s.db, Step(s, l).db, was.invoice, was.org, was.amount, was.currency);
  }

  lemma StepPaymentsOk(s: State, l: Label)
    requires Inv(s) && Enabled(s, l)
    ensures PaymentsOk(Step(s, l).db)
  {
    var t := Step(s, l);
    forall p | 0 <= p < |t.db.payments| ensures PaymentOk(t.db, t.db.payments[p]) {
      if p < |s.db.payments| {
        OldPaymentOk(s, l, p);
      } else {
        assert HandlerOk(s.db, s.handlers[l.h]);
      }
    }
  }

  /** The row an editor holds stays as it captured it until that editor moves. */
  lemma LockProtects(s: State, l: Label, h: nat, id: nat)
    requires Inv(s) && Enabled(s, l) && Holds(s, h, id) && Holds(Step(s, l), h, id)
    ensures id < |s.db.invoices| && Step(s, l).db.invoices[id] == s.db.invoices[id]
  {
    assert HandlerOk(s.db, s.handlers[h]);
    assert Locked(s, id);
    match l
    case CommitEdit(g, _, _, _, _, _) =>
      if s.handlers[g].invoice == id { assert Holds(s, g, id); }
    case _ =>
  }

  lemma HandlerStable(a: Tables, b: Tables, x: Handler)
    requires Grows(a, b) && HandlerOk(a, x) && InvoicesOk(a) && InvoicesOk(b)
    requires x.Editing? ==> b.invoices[x.invoice] == a.invoices[x.invoice]
    ensures HandlerOk(b, x)
  {
    match x
    case CheckoutLoaded(org, i, amount, currency) => BilledGrows(a, b, i, org, amount, currency);
    case RefundLoaded(p, _) => assert PaymentGrows(a.payments[p], b.payments[p]);
    case SuccessRecorded(p, _) => assert PaymentGrows(a.payments[p], b.payments[p]);
    case SuccessAnnounced(p, _) => assert PaymentGrows(a.payments[p], b.payments[p]);
    case TransitionDecided(p, i, prev, _) =>
      assert PaymentGrows(a.payments[p], b.payments[p]);
      if prev == Paid { assert InvoiceGrows(a.invoices[i], b.invoices[i]); }
    case _ =>
  }

  lemma SnapshotOk(s: State, h: nat)
    requires Inv(s) && Enabled(s, Snapshot(h))
    ensures HandlerOk(Step(s, Snapshot(h)).db, Step(s, Snapshot(h)).handlers[h])
  {
    assert HandlerOk(s.db, s.handlers[h]);
    NeverPartial(s.db, s.handlers[h].invoice);
  }

  lemma LoadedOk(s: State, l: Label)
    requires Inv(s) && Enabled(s, l) && (l.LoadCheckout? || l.LoadRefund?)
    ensures HandlerOk(Step(s, l).db, Step(s, l).handlers[|s.handlers|])
  {
    if l.LoadCheckout? { assert InvoiceOk(s.db.invoices[l.id]); } else { assert PaymentOk(s.db, s.db.payments[l.id]); }
  }

  lemma RecordedOk(s: State, intent: string, row: nat)
    requires ReturnedRow(s.db, intent, row)
    ensures PaidBy(RecordSuccess(s.db, intent, s.now), row, s.db.payments[row].invoice)
  {
  }

  lemma InsertedOk(s: State, h: nat)
    requires Enabled(s, InsertCheckout(h))
    ensures HandlerOk(Step(s, InsertCheckout(h)).db, Step(s, InsertCheckout(h)).handlers[h])
  {
  }

  lemma CreatedHandlerOk(s: State, l: Label)
    requires Inv(s) && Enabled(s, l) && |Step(s, l).handlers| > |s.handlers|
    ensures HandlerOk(Step(s, l).db, Step(s, l).handlers[|s.handlers|])
  {
    if l.LoadCheckout? || l.LoadRefund? {
      LoadedOk(s, l);
    } else if l.IntentSucceeded? {
      RecordedOk(s, l.intent, l.row);
    }
  }

  lemma AnnouncedOk(s: State, h: nat)
    requires Inv(s) && Enabled(s, Dispatch(h))
    ensures HandlerOk(Step(s, Dispatch(h)).db, Step(s, Dispatch(h)).handlers[h])
  {
    assert HandlerOk(s.db, s.handlers[h]);
  }

  /** The other steps of a handler end it or leave it events to dispatch. */
  lemma NothingCaptured(s: State, l: Label, h: nat)
    requires Enabled(s, l) && h < |s.handlers| && Step(s, l).handlers[h] != s.handlers[h]
    requires !l.InsertCheckout? && !l.Dispatch? && !l.Snapshot?
    ensures Step(s, l).handlers[h] == Done || Step(s, l).handlers[h].Dispatching?
  {
  }

  lemma MovedHandlerOk(s: State, l: Label, h: nat)
    requires Inv(s) && Enabled(s, l) && h < |s.handlers| && Step(s, l).handlers[h] != s.handlers[h]
    ensures HandlerOk(Step(s, l).db, Step(s, l).handlers[h])
  {
    match l
    case InsertCheckout(g) => InsertedOk(s, g);
    case Dispatch(g) => AnnouncedOk(s, g);
    case Snapshot(g) => SnapshotOk(s, g);
    case _ => NothingCaptured(s, l, h);
  }

  lemma StepHandlersOk(s: State, l: Label)
    requires Inv(s) && Enabled(s, l)
    ensures HandlersOk(Step(s, l))
  {
    StepGrows(s, l);
    StepInvoicesOk(s, l);
    var t := Step(s, l);
    forall h | 0 <= h < |t.handlers| ensures HandlerOk(t.db, t.handlers[h]) {
      if h < |s.handlers| && t.handlers[h] == s.handlers[h] {
        var x := s.handlers[h];
        if x.Editing? {
          assert Holds(s, h, x.invoice) && Holds(t, h, x.invoice);
          LockProtects(s, l, h, x.invoice);
        }
        HandlerStable(s.db, t.db, x);
      } else if h < |s.handlers| {
        MovedHandlerOk(s, l, h);
      } else {
        CreatedHandlerOk(s, l);
      }
    }
  }

  /** A lock is newly held only by the select that found the row unlocked. */
  lemma HeldBefore(s: State, l: Label, h: nat, id: nat)
    requires Enabled(s, l) && Holds(Step(s, l), h, id)
    ensures Holds(s, h, id) || (h == |s.handlers| && !Locked(s, id))
  {
  }

  lemma StepLocksExclusive(s: State, l: Label)
    requires LocksExclusive(s) && Enabled(s, l)
    ensures LocksExclusive(Step(s, l))
  {
    forall g: nat, h: nat, id: nat | Holds(Step(s, l), g, id) && Holds(Step(s, l), h, id) ensures g == h {
      HeldBefore(s, l, g, id);
      HeldBefore(s, l, h, id);
    }
  }

  lemma StepPaidHavePayments(s: State, l: Label)
    requires Inv(s) && Enabled(s, l)
    ensures PaidHavePayments(Step(s, l).db)
  {
    StepGrows(s, l);
    var t := Step(s, l);
    forall i: nat | i < |t.db.invoices| && t.db.invoices[i].status == Paid ensures HasPaidPayment(t.db, i) {
      var p: nat;
      if i < |s.db.invoices| && s.db.invoices[i].status == Paid {
        assert HasPaidPayment(s.db, i);
        p :| PaidBy(s.db, p, i);
      } else {
        assert l.WriteStatus? && HandlerOk(s.db, s.handlers[l.h]);
        p := s.handlers[l.h].payment;
      }
      assert PaymentGrows(s.db.payments[p], t.db.payments[p]);
      assert PaidBy(t.db, p, i);
    }
  }

  lemma StepKeepsInv(s: State, l: Label)
    requires Inv(s) && Enabled(s, l)
    ensures Inv(Step(s, l)) && Grows(s.db, Step(s, l).db)
  {
    StepGrows(s, l);
    StepInvoicesOk(s, l);
    StepPaymentsOk(s, l);
    StepHandlersOk(s, l);
    StepLocksExclusive(s, l);
    StepPaidHavePayments(s, l);
  }
}
