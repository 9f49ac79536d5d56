/** The invoice and payment tables and the SQL statements the handlers run on them.

    Rows are never deleted, so a table is a sequence and a row's id its index.  Each
    statement is one function from the tables before it to the tables after it; money
    is in hundredths, the scale of its NUMERIC(14,2) columns. */
module Ledger {
  import opened Wrappers
  import opened Money
  import opened Sums

  datatype InvoiceStatus = Draft | Sent | Viewed | PartiallyPaid | Overdue | Cancelled | Paid

  datatype Invoice = Invoice(
    org: nat, status: InvoiceStatus, items: seq<LineItem>, money: Amounts, currency: string, due: int,
    sentAt: Option<int>, viewedAt: Option<int>, paidAt: Option<int>)

  datatype PaymentStatus = Pending | Succeeded | Failed | Refunded | PartiallyRefunded

  datatype Payment = Payment(
    org: nat, invoice: nat, session: Option<string>, intent: Option<string>,
    amount: int, currency: string, status: PaymentStatus, paidAt: Option<int>)

  datatype Tables = Tables(invoices: seq<Invoice>, payments: seq<Payment>)

  /** A dispatched webhook event and the id of the row it is about. */
  datatype EventKind =
    | InvoiceCreated | InvoiceSent | InvoiceCancelled | InvoiceOverdue | InvoicePaid
    | PaymentSucceeded | PaymentFailed
  datatype Event = Event(kind: EventKind, subject: nat)

  function Coalesce<T>(a: Option<T>, b: Option<T>): Option<T> {
    if a.Some? then a else b
  }

  function OrElse<T>(a: Option<T>, b: T): T {
    match a case Some(v) => v case None => b
  }

  // ---------- statements on invoices ----------

  function InsertInvoice(
    db: Tables, org: nat, items: seq<LineItem>, money: Amounts, currency: string, due: int): Tables
  {
    db.(invoices := db.invoices + [Invoice(org, Draft, items, money, currency, due, None, None, None)])
  }

  /** The row matches `id = $1 AND org_id = $2`. */
  predicate Owned(db: Tables, org: nat, id: nat) {
    id < |db.invoices| && db.invoices[id].org == org
  }

  predicate CanEdit(db: Tables, org: nat, id: nat) {
    Owned(db, org, id) && db.invoices[id].status == Draft
  }

  /** `items` and `money` as the handler computed them. */
  function Edit(
    db: Tables, id: nat, items: seq<LineItem>, money: Amounts, currency: Option<string>, due: Option<int>): Tables
    requires id < |db.invoices|
  {
    var row := db.invoices[id];
    db.(invoices := db.invoices[id :=
      row.(items := items, money := money,
           currency := OrElse(currency, row.currency), due := OrElse(due, row.due))])
  }

  predicate CanSend(db: Tables, org: nat, id: nat) {
    Owned(db, org, id) && db.invoices[id].status == Draft
  }

  function Send(db: Tables, id: nat, now: int): Tables
    requires id < |db.invoices|
  {
    db.(invoices := db.invoices[id := db.invoices[id].(status := Sent, sentAt := Some(now))])
  }

  predicate CanCancel(db: Tables, org: nat, id: nat) {
    Owned(db, org, id) && db.invoices[id].status in {Draft, Sent, Viewed, Overdue}
  }

  function Cancel(db: Tables, id: nat): Tables
    requires id < |db.invoices|
  {
    db.(invoices := db.invoices[id := db.invoices[id].(status := Cancelled)])
  }

  function MarkViewed(db: Tables, id: nat, now: int): Tables
    requires id < |db.invoices|
  {
    var row := db.invoices[id];
    db.(invoices := db.invoices[id :=
      row.(status := if row.status == Sent then Viewed else row.status,
           viewedAt := Coalesce(row.viewedAt, Some(now)))])
  }

  predicate FallsOverdue(row: Invoice, now: int) {
    row.status in {Sent, Viewed, PartiallyPaid} && row.due < now
  }

  function OverdueRow(row: Invoice, now: int): Invoice {
    if FallsOverdue(row, now) then row.(status := Overdue) else row
  }

  /** The bulk transition. */
  function MarkOverdue(db: Tables, now: int): Tables {
    db.(invoices := seq(|db.invoices|, i requires 0 <= i < |db.invoices| => OverdueRow(db.invoices[i], now)))
  }

  /** The ids the bulk transition returns, as the events the loop then dispatches. */
  function OverdueEvents(invoices: seq<Invoice>, now: int): seq<Event> {
    if invoices == [] then []
    else
      var n := |invoices| - 1;
      OverdueEvents(invoices[..n], now)
      + (if FallsOverdue(invoices[n], now) then [Event(InvoiceOverdue, n)] else [])
  }

  predicate CanPay(row: Invoice) {
    row.status in {Sent, Viewed, Overdue, PartiallyPaid}
  }

  function WriteInvoiceStatus(db: Tables, id: nat, status: InvoiceStatus, now: int): Tables
    requires id < |db.invoices|
  {
    var row := db.invoices[id];
    db.(invoices := db.invoices[id :=
      row.(status := status,
           paidAt := if status == Paid then Coalesce(row.paidAt, Some(now)) else row.paidAt)])
  }

  // ---------- statements on payments ----------

  function InsertPayment(db: Tables, org: nat, invoice: nat, amount: int, currency: string): Tables {
    db.(payments := db.payments + [Payment(org, invoice, None, None, amount, currency, Pending, None)])
  }

  function SetSession(db: Tables, id: nat, session: string): Tables
    requires id < |db.payments|
  {
    db.(payments := db.payments[id := db.payments[id].(session := Some(session))])
  }

  function SetPaymentStatus(db: Tables, id: nat, status: PaymentStatus): Tables
    requires id < |db.payments|
  {
    db.(payments := db.payments[id := db.payments[id].(status := status)])
  }

  function LinkedRow(row: Payment, session: string, intent: string): Payment {
    if row.session == Some(session) then
      row.(intent := if intent == "" then row.intent else Some(intent))
    else row
  }

  /** `checkout.session.completed`: correlate the intent with the session's rows. */
  function LinkIntent(db: Tables, session: string, intent: string): Tables {
    db.(payments := seq(|db.payments|, i requires 0 <= i < |db.payments| =>
      LinkedRow(db.payments[i], session, intent)))
  }

  predicate HasIntent(row: Payment, intent: string) {
    row.intent == Some(intent)
  }

  function SucceededRow(row: Payment, intent: string, now: int): Payment {
    if HasIntent(row, intent) then row.(status := Succeeded, paidAt := Coalesce(row.paidAt, Some(now)))
    else row
  }

  /** The update of `payment_intent.succeeded`; nothing makes the intent unique, so it takes
      every row that carries it. */
  function RecordSuccess(db: Tables, intent: string, now: int): Tables {
    db.(payments := seq(|db.payments|, i requires 0 <= i < |db.payments| =>
      SucceededRow(db.payments[i], intent, now)))
  }

  function FailedRow(row: Payment, intent: string): Payment {
    if HasIntent(row, intent) then row.(status := Failed) else row
  }

  function RecordFailure(db: Tables, intent: string): Tables {
    db.(payments := seq(|db.payments|, i requires 0 <= i < |db.payments| =>
      FailedRow(db.payments[i], intent)))
  }

  /** `fetch_optional` after the update: one of the rows it changed. */
  predicate ReturnedRow(db: Tables, intent: string, row: nat) {
    row < |db.payments| && HasIntent(db.payments[row], intent)
  }

  // ---------- the paid-in-full decision ----------

  function SucceededCount(invoice: nat): Payment -> int {
    (p: Payment) => if p.invoice == invoice && p.status == Succeeded then 1 else 0
  }

  function SucceededAmount(invoice: nat): Payment -> int {
    (p: Payment) => if p.invoice == invoice && p.status == Succeeded then p.amount else 0
  }

  /** `SUM(amount)` over the succeeded payments of the invoice. */
  function AmountPaid(db: Tables, invoice: nat): int {
    Sum(db.payments, SucceededAmount(invoice))
  }

  /** The branch on paid against total; None leaves the invoice alone. */
  function Decide(total: int, paid: int): Option<InvoiceStatus> {
    if paid >= total then Some(Paid)
    else if paid > 0 then Some(PartiallyPaid)
    else None
  }

  // ---------- how rows may change ----------

  /** Position in the life of an invoice. */
  function Rank(s: InvoiceStatus): nat
    requires s != PartiallyPaid
  {
    match s
    case Draft => 0
    case Sent => 1
    case Viewed => 2
    case Overdue => 3
    case Cancelled => 4
    case Paid => 5
  }

  predicate WrittenOnce(before: Option<int>, after: Option<int>) {
    before.Some? ==> after == before
  }

  /** Status only climbs, money is frozen once out of draft, timestamps are written once. */
  predicate InvoiceGrows(a: Invoice, b: Invoice) {
    && a.org == b.org
    && a.status != PartiallyPaid && b.status != PartiallyPaid
    && Rank(a.status) <= Rank(b.status)
    && (a.status != Draft ==>
          a.items == b.items && a.money == b.money && a.currency == b.currency && a.due == b.due)
    && WrittenOnce(a.sentAt, b.sentAt)
    && WrittenOnce(a.viewedAt, b.viewedAt)
    && WrittenOnce(a.paidAt, b.paidAt)
  }

  predicate PaymentGrows(a: Payment, b: Payment) {
    a.org == b.org && a.invoice == b.invoice && a.amount == b.amount && a.currency == b.currency
    && WrittenOnce(a.paidAt, b.paidAt)
  }

  ghost predicate Grows(a: Tables, b: Tables) {
    && |a.invoices| <= |b.invoices|
    && |a.payments| <= |b.payments|
    && (forall i | 0 <= i < |a.invoices| :: InvoiceGrows(a.invoices[i], b.invoices[i]))
    && (forall p | 0 <= p < |a.payments| :: PaymentGrows(a.payments[p], b.payments[p]))
  }

  lemma GrowsTransitive(a: Tables, b: Tables, c: Tables)
    requires Grows(a, b) && Grows(b, c)
    ensures Grows(a, c)
  {
    forall i | 0 <= i < |a.invoices| ensures InvoiceGrows(a.invoices[i], c.invoices[i]) {
      assert InvoiceGrows(a.invoices[i], b.invoices[i]) && InvoiceGrows(b.invoices[i], c.invoices[i]);
    }
    forall p | 0 <= p < |a.payments| ensures PaymentGrows(a.payments[p], c.payments[p]) {
      assert PaymentGrows(a.payments[p], b.payments[p]) && PaymentGrows(b.payments[p], c.payments[p]);
    }
  }
}
