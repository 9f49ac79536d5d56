/** What every step does to every row, field by field: a transition table next to the statements.
    The statuses in it are those of reachable states, so `partially_paid` does not occur. */
module LedgerEffects {
  import opened Wrappers
  import opened Money
  import opened Ledger
  import opened LedgerSteps

  function Or<T>(a: Option<T>, b: T): T {
    if a.Some? then a.value else b
  }

  function FirstTime(before: Option<int>, now: int): Option<int> {
    if before.Some? then before else Some(now)
  }

  /** Invoice `i` after the step. */
  function InvoiceAfter(s: State, l: Label, i: nat): Invoice
    requires Enabled(s, l) && i < |s.db.invoices|
  {
    var a := s.db.invoices[i];
    match l
    case SendInvoice(_, id) => if id == i then a.(status := Sent, sentAt := Some(s.now)) else a
    case CancelInvoice(_, id) => if id == i then a.(status := Cancelled) else a
    case ViewInvoice(_, id) =>
      if id != i then a
      else if a.status == Sent then a.(status := Viewed, viewedAt := FirstTime(a.viewedAt, s.now))
      else a.(viewedAt := FirstTime(a.viewedAt, s.now))
    case OverdueScan => if (a.status == Sent || a.status == Viewed) && a.due < s.now then a.(status := Overdue) else a
    case WriteStatus(h) =>
      if s.handlers[h].invoice == i then a.(status := Paid, paidAt := FirstTime(a.paidAt, s.now)) else a
    case CommitEdit(h, items, _, money, currency, due) =>
      if s.handlers[h].invoice != i then a
      else a.(items := Or(items, a.items), money := money, currency := Or(currency, a.currency), due := Or(due, a.due))
    case _ => a
  }

  lemma EditedAfter(s: State, l: Label, i: nat)
    requires Inv(s) && Enabled(s, l) && i < |s.db.invoices| && l.CommitEdit?
    ensures i < |Step(s, l).db.invoices| && Step(s, l).db.invoices[i] == InvoiceAfter(s, l, i)
  {
    assert HandlerOk(s.db, s.handlers[l.h]);
  }

  lemma WrittenAfter(s: State, h: nat, i: nat)
    requires Inv(s) && Enabled(s, WriteStatus(h)) && i < |s.db.invoices|
    ensures i < |Step(s, WriteStatus(h)).db.invoices|
    ensures Step(s, WriteStatus(h)).db.invoices[i] == InvoiceAfter(s, WriteStatus(h), i)
  {
    assert HandlerOk(s.db, s.handlers[h]);
  }

  /** In every reachable state a step leaves each invoice as the table says, and nothing else of it
      changes. */
  lemma InvoiceExactly(s: State, l: Label, i: nat)
    requires Inv(s) && Enabled(s, l) && i < |s.db.invoices|
    ensures i < |Step(s, l).db.invoices| && Step(s, l).db.invoices[i] == InvoiceAfter(s, l, i)
  {
    if l.CommitEdit? {
      EditedAfter(s, l, i);
    } else if l.WriteStatus? {
      WrittenAfter(s, l.h, i);
    } else {
      assert InvoiceOk(s.db.invoices[i]);
    }
  }

  /** Payment `p` after the step. */
  function PaymentAfter(s: State, l: Label, p: nat): Payment
    requires Enabled(s, l) && p < |s.db.payments|
  {
    var a := s.db.payments[p];
    match l
    case StoreSession(h, session) => if s.handlers[h].payment == p then a.(session := Some(session)) else a
    case FinishRefund(h) =>
      if s.handlers[h].payment != p then a
      else if s.handlers[h].partial then a.(status := PartiallyRefunded)
      else a.(status := Refunded)
    case IntentLinked(session, intent) =>
      if a.session == Some(session) && intent != "" then a.(intent := Some(intent)) else a
    case IntentSucceeded(intent, _) =>
      if a.intent == Some(intent) then a.(status := Succeeded, paidAt := FirstTime(a.paidAt, s.now)) else a
    case IntentFailed(intent, _) => if a.intent == Some(intent) then a.(status := Failed) else a
    case _ => a
  }

  /** A step leaves each payment as the table says. */
  lemma PaymentExactly(s: State, l: Label, p: nat)
    requires Enabled(s, l) && p < |s.db.payments|
    ensures p < |Step(s, l).db.payments| && Step(s, l).db.payments[p] == PaymentAfter(s, l, p)
  {
  }

  /** What rows a step adds: a draft with the items and money given, or a pending payment for the
      present total and currency of an invoice out of draft. */
  lemma RowsAdded(s: State, l: Label)
    requires Inv(s) && Enabled(s, l)
    ensures var n := |s.db.invoices|;
            if l.CreateInvoice?
            then |Step(s, l).db.invoices| == n + 1
                 && Step(s, l).db.invoices[n]
                    == Invoice(l.org, Draft, l.items, l.money, l.currency, l.due, None, None, None)
            else |Step(s, l).db.invoices| == n
    ensures var n := |s.db.payments|;
            if l.InsertCheckout?
            then |Step(s, l).db.payments| == n + 1
                 && s.handlers[l.h].invoice < |s.db.invoices|
                 && var i := s.handlers[l.h].invoice;
                    Step(s, l).db.payments[n]
                    == Payment(s.db.invoices[i].org, i, None, None, s.db.invoices[i].money.total,
                               s.db.invoices[i].currency, Pending, None)
            else |Step(s, l).db.payments| == n
  {
    if l.InsertCheckout? { assert HandlerOk(s.db, s.handlers[l.h]); }
  }

  /** The scan, exactly: an invoice is overdue after it if and only if it was, or was sent or viewed
      with its due date before now. */
  lemma OverdueExactly(s: State, i: nat)
    requires Inv(s) && Enabled(s, OverdueScan) && i < |s.db.invoices|
    ensures var (a, t) := (s.db.invoices[i], Step(s, OverdueScan));
            && i < |t.db.invoices|
            && (t.db.invoices[i].status == Overdue
                <==> a.status == Overdue || (a.status in {Sent, Viewed} && a.due < s.now))
  {
    InvoiceExactly(s, OverdueScan, i);
  }
}
