/** The handlers as the methods of one service object, each run to its end with no other
    handler in between, and what each does to the tables and the dispatch log as a function. */
module Handlers {
  import opened Wrappers
  import opened Money
  import opened Ledger
  import opened LedgerSteps

  /** The tables and everything dispatched so far. */
  datatype Books = Books(db: Tables, log: seq<Event>)

  // ---------- Stripe events ----------

  datatype StripeEvent =
    | CheckoutCompleted(session: string, intent: string)
    | IntentSucceededEvent(intent: string)
    | IntentFailedEvent(intent: string)
    | OtherEvent

  /** What a handler meets: the time, the row the database returns first, and how many of its
      steps it takes when it stops early, by a failed statement or otherwise. */
  datatype Env = Env(now: int, hint: nat, stop: Option<nat>)

  /** No handler of an event takes more steps. */
  const ALL: nat := 4

  function Steps(env: Env): nat {
    OrElse(env.stop, ALL)
  }

  /** The row a statement on an intent returns; `hint` chooses among several. */
  function Chosen(payments: seq<Payment>, intent: string, hint: nat): (row: Option<nat>)
    ensures row.Some? ==> row.value < |payments| && HasIntent(payments[row.value], intent)
    ensures row == None <==> forall p | 0 <= p < |payments| :: !HasIntent(payments[p], intent)
    ensures hint < |payments| && HasIntent(payments[hint], intent) ==> row == Some(hint)
    decreases |payments|
  {
    if hint < |payments| && HasIntent(payments[hint], intent) then Some(hint)
    else if payments == [] then None
    else
      var n := |payments| - 1;
      if HasIntent(payments[n], intent) then Some(n) else Chosen(payments[..n], intent, hint)
  }

  /** `transition_invoice_for_payment`: the tables after it, and whether it flipped the invoice. */
  function Transition(db: Tables, id: nat, now: int): (Tables, bool)
    requires id < |db.invoices|
  {
    match Decide(db.invoices[id].money.total, AmountPaid(db, id))
    case None => (db, false)
    case Some(next) => (WriteInvoiceStatus(db, id, next, now), db.invoices[id].status != Paid && next == Paid)
  }

  ghost predicate Linked(db: Tables) {
    forall p | 0 <= p < |db.payments| :: db.payments[p].invoice < |db.invoices|
  }

  /** The first `steps` steps: record the success, announce it, write the invoice's status,
      announce that it is paid. */
  function Succeed(b: Books, intent: string, row: nat, now: int, steps: nat): Books
    requires ReturnedRow(b.db, intent, row) && b.db.payments[row].invoice < |b.db.invoices|
  {
    var id, recorded := b.db.payments[row].invoice, RecordSuccess(b.db, intent, now);
    var announced := b.log + [Event(PaymentSucceeded, row)];
    if steps == 0 then b
    else if steps == 1 then Books(recorded, b.log)
    else if steps == 2 then Books(recorded, announced)
    else
      var (db, flipped) := Transition(recorded, id, now);
      Books(db, announced + if flipped && steps > 3 then [Event(InvoicePaid, id)] else [])
  }

  /** Record the failure, announce it. */
  function Fail(b: Books, intent: string, row: nat, steps: nat): Books {
    if steps == 0 then b
    else Books(RecordFailure(b.db, intent), b.log + if steps > 1 then [Event(PaymentFailed, row)] else [])
  }

  function HandleEvent(b: Books, e: StripeEvent, env: Env): Books
    requires Linked(b.db)
  {
    match e
    case CheckoutCompleted(session, intent) =>
      if Steps(env) == 0 then b else b.(db := LinkIntent(b.db, session, intent))
    case IntentSucceededEvent(intent) =>
      (match Chosen(b.db.payments, intent, env.hint)
       case None => b
       case Some(row) => Succeed(b, intent, row, env.now, Steps(env)))
    case IntentFailedEvent(intent) =>
      (match Chosen(b.db.payments, intent, env.hint)
       case None => b
       case Some(row) => Fail(b, intent, row, Steps(env)))
    case OtherEvent => b
  }

  lemma HandleEventKeepsLinks(b: Books, e: StripeEvent, env: Env)
    requires Linked(b.db)
    ensures Linked(HandleEvent(b, e, env).db)
  {
  }

  // ---------- requests and the cron ----------

  /** A call with everything it depends on besides the tables: `clientKnown`, `numberFree`,
      `currencyKnown`, and Stripe's answer. */
  datatype Call =
    | Create(org: nat, items: seq<LineItem>, rate: real, currency: string, due: int,
             clientKnown: bool, numberFree: bool)
    | Update(org: nat, id: nat, newItems: Option<seq<LineItem>>, newRate: Option<real>,
             newCurrency: Option<string>, newDue: Option<int>)
    | SendCall(org: nat, id: nat)
    | CancelCall(org: nat, id: nat)
    | ViewCall(org: nat, id: nat)
    | OverdueTick
    | Checkout(org: nat, id: nat, currencyKnown: bool, session: Option<string>)
    | Refund(org: nat, id: nat, partial: bool, stripeOk: bool)

  predicate Payable(db: Tables, org: nat, id: nat) {
    Owned(db, org, id) && CanPay(db.invoices[id])
  }

  predicate Refundable(db: Tables, org: nat, id: nat) {
    id < |db.payments| && db.payments[id].org == org
    && db.payments[id].status == Succeeded && db.payments[id].intent.Some?
  }

  function CheckedOut(db: Tables, org: nat, id: nat, session: Option<string>): Tables
    requires id < |db.invoices|
  {
    var pending := InsertPayment(db, org, id, db.invoices[id].money.total, db.invoices[id].currency);
    if session.Some? then SetSession(pending, |db.payments|, session.value) else pending
  }

  /** The tables and the log after a call. */
  function Serve(b: Books, c: Call, now: int): Books {
    match c
    case Create(org, items, rate, currency, due, clientKnown, numberFree) =>
      var money := Store(items, rate);
      if !clientKnown || money == None || !numberFree then b
      else Books(InsertInvoice(b.db, org, items, money.value, currency, due),
                 b.log + [Event(InvoiceCreated, |b.db.invoices|)])
    case Update(org, id, items, rate, currency, due) =>
      if !CanEdit(b.db, org, id) then b
      else
        var row := b.db.invoices[id];
        (match Recomputed(row, items, rate)
         case None => b
         case Some(money) => b.(db := Edit(b.db, id, EditedItems(row, items), money, currency, due)))
    case SendCall(org, id) =>
      if CanSend(b.db, org, id) then Books(Send(b.db, id, now), b.log + [Event(InvoiceSent, id)]) else b
    case CancelCall(org, id) =>
      if CanCancel(b.db, org, id) then Books(Cancel(b.db, id), b.log + [Event(InvoiceCancelled, id)]) else b
    case ViewCall(org, id) => if Owned(b.db, org, id) then b.(db := MarkViewed(b.db, id, now)) else b
    case OverdueTick => Books(MarkOverdue(b.db, now), b.log + OverdueEvents(b.db.invoices, now))
    case Checkout(org, id, currencyKnown, session) =>
      if Payable(b.db, org, id) && currencyKnown then b.(db := CheckedOut(b.db, org, id, session)) else b
    case Refund(org, id, partial, stripeOk) =>
      if Refundable(b.db, org, id) && stripeOk
      then b.(db := SetPaymentStatus(b.db, id, if partial then PartiallyRefunded else Refunded))
      else b
  }

  datatype Error = NotFound | BadRequest | Conflict | Internal

  class Service {
    var invoices: seq<Invoice>
    var payments: seq<Payment>
    var log: seq<Event>

    function Db(): Tables
      reads this
    {
      Tables(invoices, payments)
    }

    function View(): Books
      reads this
    {
      Books(Db(), log)
    }

    constructor ()
      ensures View() == Books(Tables([], []), [])
    {
      invoices, payments, log := [], [], [];
    }

    method Dispatch(e: Event)
      modifies this`log
      ensures log == old(log) + [e]
    {
      log := log + [e];
    }

    /** `create_invoice` and its event; a column overflow is found before the unique number. */
    method CreateInvoice(c: Call, now: int) returns (r: Result<nat, Error>)
      requires c.Create?
      modifies this
      ensures View() == Serve(old(View()), c, now)
      ensures r == if !c.clientKnown then Err(BadRequest)
                   else if Store(c.items, c.rate) == None then Err(Internal)
                   else if !c.numberFree then Err(Conflict)
                   else Ok(|old(invoices)|)
    {
      if !c.clientKnown {
        return Err(BadRequest);
      }
      var totals := ComputeTotals(c.items, c.rate);
      var money := Columns(totals, c.rate);
      if money == None {
        return Err(Internal);
      }
      if !c.numberFree {
        return Err(Conflict);
      }
      var id := |invoices|;
      invoices := invoices + [Invoice(c.org, Draft, c.items, money.value, c.currency, c.due, None, None, None)];
      Dispatch(Event(InvoiceCreated, id));
      return Ok(id);
    }

    /** `update`: the row lock spans the whole method. */
    method UpdateInvoice(c: Call, now: int) returns (r: Result<Invoice, Error>)
      requires c.Update?
      modifies this`invoices
      ensures View() == Serve(old(View()), c, now)
      ensures r.Ok? <==> old(CanEdit(Db(), c.org, c.id)) && Recomputed(old(invoices)[c.id], c.newItems, c.newRate).Some?
      ensures r.Ok? ==> r.value == invoices[c.id]
      ensures r.Err? ==> r.error == if !old(Owned(Db(), c.org, c.id)) then NotFound
                                    else if old(CanEdit(Db(), c.org, c.id)) then Internal
                                    else BadRequest
    {
      if c.id >= |invoices| || invoices[c.id].org != c.org {
        return Err(NotFound);
      }
      var current := invoices[c.id];
      if current.status != Draft {
        return Err(BadRequest);
      }
      var items := if c.newItems.Some? then c.newItems.value else current.items;
      var rate := if c.newRate.Some? then c.newRate.value else Rate(current.money.taxRate);
      var totals := ComputeTotals(items, rate);
      var money := Columns(totals, rate);
      if money == None {
        return Err(Internal);
      }
      var updated := current.(items := items, money := money.value,
                              currency := OrElse(c.newCurrency, current.currency),
                              due := OrElse(c.newDue, current.due));
      invoices := invoices[c.id := updated];
      return Ok(updated);
    }

    method SendInvoice(org: nat, id: nat, now: int) returns (r: Result<Invoice, Error>)
      modifies this
      ensures View() == Serve(old(View()), SendCall(org, id), now)
      ensures r.Ok? <==> old(CanSend(Db(), org, id))
      ensures if r.Ok? then r.value == invoices[id] else r.error == BadRequest
    {
      if id >= |invoices| || invoices[id].org != org || invoices[id].status != Draft {
        return Err(BadRequest);
      }
      invoices := invoices[id := invoices[id].(status := Sent, sentAt := Some(now))];
      Dispatch(Event(InvoiceSent, id));
      return Ok(invoices[id]);
    }

    method CancelInvoice(org: nat, id: nat, now: int) returns (r: Result<Invoice, Error>)
      modifies this
      ensures View() == Serve(old(View()), CancelCall(org, id), now)
      ensures r.Ok? <==> old(CanCancel(Db(), org, id))
      ensures if r.Ok? then r.value == invoices[id] else r.error == BadRequest
    {
      if id >= |invoices| || invoices[id].org != org || invoices[id].status !in {Draft, Sent, Viewed, Overdue} {
        return Err(BadRequest);
      }
      invoices := invoices[id := invoices[id].(status := Cancelled)];
      Dispatch(Event(InvoiceCancelled, id));
      return Ok(invoices[id]);
    }

    method ViewInvoice(org: nat, id: nat, now: int) returns (r: Result<Invoice, Error>)
      modifies this`invoices
      ensures View() == Serve(old(View()), ViewCall(org, id), now)
      ensures r.Ok? <==> old(Owned(Db(), org, id))
      ensures if r.Ok? then r.value == invoices[id] else r.error == NotFound
    {
      if id >= |invoices| || invoices[id].org != org {
        return Err(NotFound);
      }
      var row := invoices[id];
      invoices := invoices[id := row.(status := if row.status == Sent then Viewed else row.status,
                                      viewedAt := Coalesce(row.viewedAt, Some(now)))];
      return Ok(invoices[id]);
    }

    /** The overdue cron: one bulk update, then one dispatch per row it returned. */
    method RunOverdue(now: int)
      modifies this
      ensures View() == Serve(old(View()), OverdueTick, now)
    {
      var transitioned := OverdueEvents(invoices, now);
      invoices := MarkOverdue(Db(), now).invoices;
      var i := 0;
      while i < |transitioned|
        invariant i <= |transitioned|
        invariant Db() == MarkOverdue(old(Db()), now)
        invariant log == old(log) + transitioned[..i]
      {
        Dispatch(transitioned[i]);
        i := i + 1;
      }
    }

    /** `create_checkout` for a request without an Idempotency-Key; `session` is what Stripe
        returns, None when its call fails.  The payment row stays either way. */
    method CreateCheckout(org: nat, id: nat, currencyKnown: bool, session: Option<string>, now: int)
      returns (r: Result<nat, Error>)
      modifies this`payments
      ensures View() == Serve(old(View()), Checkout(org, id, currencyKnown, session), now)
      ensures r == if !old(Owned(Db(), org, id)) then Err(NotFound)
                   else if !old(Payable(Db(), org, id)) || !currencyKnown then Err(BadRequest)
                   else if session == None then Err(Internal)
                   else Ok(|old(payments)|)
    {
      if id >= |invoices| || invoices[id].org != org {
        return Err(NotFound);
      }
      var invoice := invoices[id];
      if invoice.status !in {Sent, Viewed, Overdue, PartiallyPaid} {
        return Err(BadRequest);
      }
      if !currencyKnown {
        return Err(BadRequest);
      }
      var payment := |payments|;
      payments := payments + [Payment(org, id, None, None, invoice.money.total, invoice.currency, Pending, None)];
      if session == None {
        return Err(Internal);
      }
      payments := payments[payment := payments[payment].(session := Some(session.value))];
      return Ok(payment);
    }

    /** `refund`; an amount that is absent or not positive asks for a full refund. */
    method RefundPayment(org: nat, id: nat, amount: Option<int>, stripeOk: bool, now: int)
      returns (r: Result<PaymentStatus, Error>)
      modifies this`payments
      ensures var partial := amount.Some? && amount.value > 0;
              && View() == Serve(old(View()), Refund(org, id, partial, stripeOk), now)
              && (r.Ok? <==> old(Refundable(Db(), org, id)) && stripeOk)
              && (r.Ok? ==> r.value == if partial then PartiallyRefunded else Refunded)
      ensures r.Err? ==> r.error == if old(Refundable(Db(), org, id)) then Internal
                                    else if id < |old(payments)| && old(payments[id].org) == org then BadRequest
                                    else NotFound
    {
      if id >= |payments| || payments[id].org != org {
        return Err(NotFound);
      }
      var payment := payments[id];
      if payment.status != Succeeded || payment.intent == None {
        return Err(BadRequest);
      }
      var cents := if amount.Some? && amount.value > 0 then amount else None;
      if !stripeOk {
        return Err(Internal);
      }
      var status := if cents.Some? then PartiallyRefunded else Refunded;
      payments := payments[id := payment.(status := status)];
      return Ok(status);
    }

    /** `transition_invoice_for_payment`. */
    method TransitionInvoice(id: nat, now: int) returns (flipped: bool)
      requires id < |invoices|
      modifies this`invoices
      ensures (Db(), flipped) == Transition(old(Db()), id, now)
    {
      var prev, total := invoices[id].status, invoices[id].money.total;
      var paid := AmountPaid(Db(), id);
      var next: InvoiceStatus;
      if paid >= total {
        next := Paid;
      } else if paid > 0 {
        next := PartiallyPaid;
      } else {
        return false;
      }
      var row := invoices[id];
      invoices := invoices[id := row.(status := next,
                                      paidAt := if next == Paid then Coalesce(row.paidAt, Some(now)) else row.paidAt)];
      return prev != Paid && next == Paid;
    }

    /** `handle_payment_succeeded`. */
    method PaymentSucceededArm(intent: string, env: Env)
      requires Linked(Db())
      modifies this
      ensures View() == HandleEvent(old(View()), IntentSucceededEvent(intent), env)
    {
      var updated := Chosen(payments, intent, env.hint);
      if Steps(env) == 0 {
        return;
      }
      payments := RecordSuccess(Db(), intent, env.now).payments;
      if updated == None {
        assert payments == old(payments);
        return;
      }
      if Steps(env) == 1 {
        return;
      }
      var id := payments[updated.value].invoice;
      Dispatch(Event(PaymentSucceeded, updated.value));
      if Steps(env) == 2 {
        return;
      }
      var flipped := TransitionInvoice(id, env.now);
      if flipped && Steps(env) > 3 {
        Dispatch(Event(InvoicePaid, id));
      }
    }

    /** `handle_payment_failed`. */
    method PaymentFailedArm(intent: string, env: Env)
      requires Linked(Db())
      modifies this
      ensures View() == HandleEvent(old(View()), IntentFailedEvent(intent), env)
    {
      var updated := Chosen(payments, intent, env.hint);
      if Steps(env) == 0 {
        return;
      }
      payments := RecordFailure(Db(), intent).payments;
      if updated == None {
        assert payments == old(payments);
      } else if Steps(env) > 1 {
        Dispatch(Event(PaymentFailed, updated.value));
      }
    }

    /** The arms of `stripe_webhook` past the dedup check; false when the handler stops early. */
    method HandleStripe(e: StripeEvent, env: Env) returns (ok: bool)
      requires Linked(Db())
      modifies this
      ensures View() == HandleEvent(old(View()), e, env)
      ensures Linked(Db())
      ensures ok <==> env.stop == None
    {
      HandleEventKeepsLinks(View(), e, env);
      match e {
        case CheckoutCompleted(session, intent) =>
          if Steps(env) > 0 {
            payments := LinkIntent(Db(), session, intent).payments;
          }
        case IntentSucceededEvent(intent) => PaymentSucceededArm(intent, env);
        case IntentFailedEvent(intent) => PaymentFailedArm(intent, env);
        case OtherEvent =>
      }
      return env.stop == None;
    }
  }
}
