/** When each call succeeds in a reachable state, and what a call or a Stripe event changes, row by
    row and event by event. */
module HandlerEffects {
  import opened Wrappers
  import opened Money
  import opened Ledger
  import opened LedgerSteps
  import opened LedgerEffects
  import opened Handlers
  import opened HandlersAlone

  predicate OwnInvoice(db: Tables, org: nat, id: nat) {
    id < |db.invoices| && db.invoices[id].org == org
  }

  /** The statuses each call needs.  A cancel is refused exactly for cancelled and paid invoices, a
      checkout exactly for drafts and those two, and the missing intent a refund looks for never
      occurs. */
  lemma AcceptedExactly(b: Books, c: Call)
    requires InvoicesOk(b.db) && PaymentsOk(b.db)
    ensures Accepted(b, c) <==>
              match c
              case Create(_, items, rate, _, _, clientKnown, numberFree) =>
                clientKnown && numberFree && Store(items, rate) != None
              case Update(org, id, items, rate, _, _) =>
                OwnInvoice(b.db, org, id) && b.db.invoices[id].status == Draft
                && var row := b.db.invoices[id];
                   Store(Or(items, row.items), Or(rate, row.money.taxRate as real / 10000.0)) != None
              case SendCall(org, id) => OwnInvoice(b.db, org, id) && b.db.invoices[id].status == Draft
              case CancelCall(org, id) =>
                OwnInvoice(b.db, org, id) && b.db.invoices[id].status !in {Cancelled, Paid}
              case ViewCall(org, id) => OwnInvoice(b.db, org, id)
              case OverdueTick => true
              case Checkout(org, id, currencyKnown, _) =>
                OwnInvoice(b.db, org, id) && b.db.invoices[id].status !in {Draft, Cancelled, Paid} && currencyKnown
              case Refund(org, id, _, stripeOk) =>
                id < |b.db.payments| && b.db.payments[id].org == org
                && b.db.payments[id].status == Succeeded && stripeOk
  {
    match c
    case CancelCall(_, id) => if id < |b.db.invoices| { assert InvoiceOk(b.db.invoices[id]); }
    case Checkout(_, id, _, _) => if id < |b.db.invoices| { assert InvoiceOk(b.db.invoices[id]); }
    case Refund(_, id, _, _) => if id < |b.db.payments| { assert PaymentOk(b.db, b.db.payments[id]); }
    case _ =>
  }

  /** One invoice row is replaced and one event dispatched. */
  predicate OneInvoice(b: Books, t: Books, id: nat, row: Invoice, events: seq<Event>) {
    id < |b.db.invoices| && t == Books(Tables(b.db.invoices[id := row], b.db.payments), b.log + events)
  }

  /** Sending, cancelling and viewing change one row, in these fields. */
  lemma StatusCallsExactly(b: Books, org: nat, id: nat, now: int)
    requires OwnInvoice(b.db, org, id)
    ensures var a := b.db.invoices[id];
            && (Accepted(b, SendCall(org, id)) ==>
                  OneInvoice(b, Serve(b, SendCall(org, id), now), id,
                             a.(status := Sent, sentAt := Some(now)), [Event(InvoiceSent, id)]))
            && (Accepted(b, CancelCall(org, id)) ==>
                  OneInvoice(b, Serve(b, CancelCall(org, id), now), id,
                             a.(status := Cancelled), [Event(InvoiceCancelled, id)]))
            && OneInvoice(b, Serve(b, ViewCall(org, id), now), id,
                          a.(status := if a.status == Sent then Viewed else a.status,
                             viewedAt := FirstTime(a.viewedAt, now)), [])
  {
    assert b.log + [] == b.log;
  }

  /** A viewed invoice has its first viewing time, and its status only turns from sent. */
  lemma ViewedHasTime(b: Books, org: nat, id: nat, now: int)
    requires OwnInvoice(b.db, org, id)
    ensures var (a, t) := (b.db.invoices[id], Serve(b, ViewCall(org, id), now));
            && id < |t.db.invoices| && t.db.invoices[id].viewedAt.Some?
            && (a.viewedAt.Some? ==> t.db.invoices[id].viewedAt == a.viewedAt)
            && (t.db.invoices[id].status == Viewed <==> a.status == Sent || a.status == Viewed)
  {
  }

  /** Creating appends a draft with the columns of its items, and announces it. */
  lemma CreateExactly(b: Books, c: Call, now: int)
    requires c.Create? && Accepted(b, c)
    ensures var n, money := |b.db.invoices|, Store(c.items, c.rate).value;
            var row := Invoice(c.org, Draft, c.items, money, c.currency, c.due, None, None, None);
            Serve(b, c, now) == Books(Tables(b.db.invoices + [row], b.db.payments),
                                      b.log + [Event(InvoiceCreated, n)])
  {
  }

  /** An edit recomputes the money of the items and the rate it ends with. */
  lemma UpdateExactly(b: Books, c: Call, now: int)
    requires c.Update? && Accepted(b, c)
    ensures var a := b.db.invoices[c.id];
            var (items, rate) := (Or(c.newItems, a.items), Or(c.newRate, a.money.taxRate as real / 10000.0));
            && Store(items, rate).Some?
            && OneInvoice(b, Serve(b, c, now), c.id,
                          a.(items := items, money := Store(items, rate).value,
                             currency := Or(c.newCurrency, a.currency), due := Or(c.newDue, a.due)), [])
  {
    assert b.log + [] == b.log;
  }

  /** A checkout appends one pending payment of the whole total; with Stripe's session, when it gave
      one. */
  lemma CheckoutExactly(b: Books, c: Call, now: int)
    requires c.Checkout? && Accepted(b, c)
    ensures var a := b.db.invoices[c.id];
            var row := Payment(c.org, c.id, c.session, None, a.money.total, a.currency, Pending, None);
            Serve(b, c, now) == Books(Tables(b.db.invoices, b.db.payments + [row]), b.log)
  {
  }

  /** A refund changes the payment's status and nothing else: a paid invoice stays paid. */
  lemma RefundExactly(b: Books, c: Call, now: int)
    requires c.Refund? && Accepted(b, c)
    ensures Serve(b, c, now) ==
              Books(Tables(b.db.invoices,
                           b.db.payments[c.id := b.db.payments[c.id].(
                             status := if c.partial then PartiallyRefunded else Refunded)]),
                    b.log)
  {
  }

  /** The overdue cron over a reachable table: which invoices are overdue after it, and which of them
      it announces. */
  lemma OverdueTickExactly(b: Books, now: int, i: nat)
    requires InvoicesOk(b.db) && i < |b.db.invoices|
    ensures var (a, t) := (b.db.invoices[i], Serve(b, OverdueTick, now));
            var falls := (a.status == Sent || a.status == Viewed) && a.due < now;
            && |t.db.invoices| == |b.db.invoices| && t.db.payments == b.db.payments
            && t.db.invoices[i] == (if falls then a.(status := Overdue) else a)
            && (Event(InvoiceOverdue, i) in OverdueEvents(b.db.invoices, now) <==> falls)
            && t.log == b.log + OverdueEvents(b.db.invoices, now)
  {
    assert InvoiceOk(b.db.invoices[i]);
    AnnouncedIfFalls(b.db.invoices, now, i);
  }

  lemma {:induction false} AnnouncedIfFalls(invoices: seq<Invoice>, now: int, i: nat)
    ensures Event(InvoiceOverdue, i) in OverdueEvents(invoices, now)
            <==> i < |invoices| && invoices[i].status in {Sent, Viewed, PartiallyPaid} && invoices[i].due < now
  {
    if invoices != [] { AnnouncedIfFalls(invoices[..|invoices| - 1], now, i); }
  }

  // ---------- Stripe events ----------

  /** `checkout.session.completed` handled: a payment changes only if its session is the event's and
      the intent is not empty, and then only its intent does, to the event's. */
  lemma LinkExactly(b: Books, session: string, intent: string, env: Env)
    requires Linked(b.db) && env.stop == None
    ensures var t := HandleEvent(b, CheckoutCompleted(session, intent), env);
            && t.db.invoices == b.db.invoices && t.log == b.log && |t.db.payments| == |b.db.payments|
            && forall p | 0 <= p < |b.db.payments| ::
                 t.db.payments[p] ==
                   if b.db.payments[p].session == Some(session) && intent != ""
                   then b.db.payments[p].(intent := Some(intent))
                   else b.db.payments[p]
  {
  }

  /** `payment_intent.payment_failed` handled: the payments of the intent are failed, the returned one
      among them is announced, and nothing else changes. */
  lemma FailExactly(b: Books, intent: string, env: Env, row: nat)
    requires Linked(b.db) && env.stop == None && Chosen(b.db.payments, intent, env.hint) == Some(row)
    ensures var t := HandleEvent(b, IntentFailedEvent(intent), env);
            && t.db.invoices == b.db.invoices && t.log == b.log + [Event(PaymentFailed, row)]
            && |t.db.payments| == |b.db.payments| && t.db.payments[row].status == Failed
            && forall p | 0 <= p < |b.db.payments| ::
                 t.db.payments[p] ==
                   if b.db.payments[p].intent == Some(intent) then b.db.payments[p].(status := Failed)
                   else b.db.payments[p]
  {
  }

  /** `payment_intent.succeeded` handled over a reachable table: the payments of the intent stand
      succeeded with their first time, and the invoice of the returned one, for a nonnegative total,
      is paid with its first time; invoice.paid goes out if it was not paid before. */
  lemma SucceedExactly(b: Books, intent: string, env: Env, row: nat)
    requires InvoicesOk(b.db) && PaymentsOk(b.db) && Linked(b.db)
    requires env.stop == None && Chosen(b.db.payments, intent, env.hint) == Some(row)
    requires b.db.invoices[b.db.payments[row].invoice].money.total >= 0
    ensures var (t, id) := (HandleEvent(b, IntentSucceededEvent(intent), env), b.db.payments[row].invoice);
            var a := b.db.invoices[id];
            && t.db.invoices == b.db.invoices[id := a.(status := Paid, paidAt := FirstTime(a.paidAt, env.now))]
            && t.log == b.log + [Event(PaymentSucceeded, row)]
                        + (if a.status == Paid then [] else [Event(InvoicePaid, id)])
            && |t.db.payments| == |b.db.payments|
            && forall p | 0 <= p < |b.db.payments| ::
                 t.db.payments[p] ==
                   if b.db.payments[p].intent == Some(intent)
                   then b.db.payments[p].(status := Succeeded, paidAt := FirstTime(b.db.payments[p].paidAt, env.now))
                   else b.db.payments[p]
  {
    var id := b.db.payments[row].invoice;
    var recorded := RecordSuccess(b.db, intent, env.now);
    RecordKeepsOk(b.db, intent, env.now);
    assert Pays(recorded, row, id);
    PaysDecides(recorded, row, id);
  }

  /** An event no payment carries the intent of, or of another type, changes nothing. */
  lemma UnknownChangesNothing(b: Books, e: StripeEvent, env: Env)
    requires Linked(b.db)
    requires e.OtherEvent?
             || (!e.CheckoutCompleted?
                 && forall p | 0 <= p < |b.db.payments| :: b.db.payments[p].intent != Some(e.intent))
    ensures HandleEvent(b, e, env) == b
  {
    if !e.OtherEvent? { assert Chosen(b.db.payments, e.intent, env.hint) == None; }
  }
}
