/** Every handler run alone: its steps, uninterrupted from a reachable state, do what its method
    does.  And what the success handler leaves when it runs twice or stops halfway. */
module HandlersAlone {
  import opened Wrappers
  import opened Money
  import opened Ledger
  import opened LedgerSteps
  import opened Handlers

  ghost predicate RunsTo(s: State, labels: seq<Label>, t: State)
    decreases |labels|
  {
    if labels == [] then t == s
    else Enabled(s, labels[0]) && RunsTo(Step(s, labels[0]), labels[1..], t)
  }

  lemma OneStep(s: State, l: Label)
    requires Enabled(s, l)
    ensures RunsTo(s, [l], Step(s, l))
  {
    assert [l][1..] == [];
  }

  lemma {:induction false} Join(s: State, a: seq<Label>, t: State, b: seq<Label>, u: State)
    requires RunsTo(s, a, t) && RunsTo(t, b, u)
    ensures RunsTo(s, a + b, u)
    decreases |a|
  {
    if a == [] {
      assert a + b == b;
    } else {
      assert (a + b)[1..] == a[1..] + b;
      Join(Step(s, a[0]), a[1..], t, b, u);
    }
  }

  lemma Then(s: State, a: seq<Label>, t: State, l: Label)
    requires RunsTo(s, a, t) && Enabled(t, l)
    ensures RunsTo(s, a + [l], Step(t, l))
  {
    OneStep(t, l);
    Join(s, a, t, [l], Step(t, l));
  }

  function BooksOf(s: State): Books { Books(s.db, s.log) }

  predicate Finished(x: Handler) { x == Done || x == Dispatching([]) }

  /** The handlers there were, and one more. */
  ghost predicate OneMore(s: State, t: State, x: Handler) {
    t.handlers == s.handlers + [x] && t.now == s.now
  }

  /** The events a handler owes, dispatched one after the other. */
  lemma {:induction false} DispatchAll(s: State, h: nat) returns (labels: seq<Label>, t: State)
    requires At(s, h) && s.handlers[h].Dispatching?
    ensures RunsTo(s, labels, t)
    ensures t == s.(handlers := s.handlers[h := Dispatching([])], log := s.log + s.handlers[h].events)
    decreases |s.handlers[h].events|
  {
    var events := s.handlers[h].events;
    labels, t := [], s;
    if events != [] {
      var next := Step(s, Dispatch(h));
      var rest;
      rest, t := DispatchAll(next, h);
      OneStep(s, Dispatch(h));
      Join(s, [Dispatch(h)], next, rest, t);
      labels := [Dispatch(h)] + rest;
      assert s.log + [events[0]] + events[1..] == s.log + events;
    } else {
      assert s.handlers[h := Dispatching([])] == s.handlers;
    }
  }

  /** A step that spawns a handler with events to dispatch, and the dispatches. */
  lemma SpawnAndDispatch(s: State, l: Label, events: seq<Event>) returns (labels: seq<Label>, t: State)
    requires Enabled(s, l) && OneMore(s, Step(s, l), Dispatching(events)) && Step(s, l).log == s.log
    ensures RunsTo(s, labels, t) && OneMore(s, t, Dispatching([]))
    ensures BooksOf(t) == Books(Step(s, l).db, s.log + events)
  {
    var mid, rest := Step(s, l), [];
    rest, t := DispatchAll(mid, |s.handlers|);
    OneStep(s, l);
    Join(s, [l], mid, rest, t);
    labels := [l] + rest;
  }

  // ---------- requests and the cron ----------

  lemma UnlockedAfterDraft(s: State, id: nat)
    requires Inv(s) && id < |s.db.invoices| && s.db.invoices[id].status != Draft
    ensures !Locked(s, id)
  {
    forall h: nat | h < |s.handlers| && s.handlers[h].Editing? ensures s.handlers[h].invoice != id {
      assert HandlerOk(s.db, s.handlers[h]);
    }
  }

  /** No editor holds the row the call is about. */
  ghost predicate Unblocked(s: State, c: Call) {
    c.Update? || c.SendCall? || c.CancelCall? || c.ViewCall? ==> !Locked(s, c.id)
  }

  lemma UpdateAlone(s: State, c: Call) returns (labels: seq<Label>, t: State)
    requires Inv(s) && c.Update? && !Locked(s, c.id) && CanEdit(s.db, c.org, c.id)
    requires Recomputed(s.db.invoices[c.id], c.newItems, c.newRate).Some?
    ensures RunsTo(s, labels, t) && OneMore(s, t, Done)
    ensures BooksOf(t) == Serve(BooksOf(s), c, s.now)
  {
    var row := s.db.invoices[c.id];
    var select := SelectForEdit(c.org, c.id);
    var commit := CommitEdit(|s.handlers|, c.newItems, c.newRate,
                             Recomputed(row, c.newItems, c.newRate).value, c.newCurrency, c.newDue);
    var mid := Step(s, select);
    OneStep(s, select);
    Then(s, [select], mid, commit);
    labels, t := [select] + [commit], Step(mid, commit);
  }

  lemma CheckoutInsertedAlone(s: State, c: Call) returns (labels: seq<Label>, t: State)
    requires Inv(s) && c.Checkout? && Payable(s.db, c.org, c.id)
    ensures RunsTo(s, labels, t) && OneMore(s, t, CheckoutInserted(|s.db.payments|)) && t.log == s.log
    ensures t.db == InsertPayment(s.db, c.org, c.id, s.db.invoices[c.id].money.total, s.db.invoices[c.id].currency)
  {
    var load := LoadCheckout(c.org, c.id);
    var mid := Step(s, load);
    OneStep(s, load);
    Then(s, [load], mid, InsertCheckout(|s.handlers|));
    labels, t := [load] + [InsertCheckout(|s.handlers|)], Step(mid, InsertCheckout(|s.handlers|));
  }

  lemma CheckoutAlone(s: State, c: Call) returns (labels: seq<Label>, t: State)
    requires Inv(s) && c.Checkout? && Payable(s.db, c.org, c.id) && c.currencyKnown
    ensures RunsTo(s, labels, t) && OneMore(s, t, Done)
    ensures BooksOf(t) == Serve(BooksOf(s), c, s.now)
  {
    var first, mid := CheckoutInsertedAlone(s, c);
    var last := if c.session.Some? then StoreSession(|s.handlers|, c.session.value) else Abort(|s.handlers|);
    Then(s, first, mid, last);
    labels, t := first + [last], Step(mid, last);
  }

  lemma RefundAlone(s: State, c: Call) returns (labels: seq<Label>, t: State)
    requires Inv(s) && c.Refund? && Refundable(s.db, c.org, c.id) && c.stripeOk
    ensures RunsTo(s, labels, t) && OneMore(s, t, Done)
    ensures BooksOf(t) == Serve(BooksOf(s), c, s.now)
  {
    var load := LoadRefund(c.org, c.id, c.partial);
    var mid := Step(s, load);
    OneStep(s, load);
    Then(s, [load], mid, FinishRefund(|s.handlers|));
    labels, t := [load] + [FinishRefund(|s.handlers|)], Step(mid, FinishRefund(|s.handlers|));
  }

  lemma OverdueEnabled(s: State)
    requires Inv(s)
    ensures Enabled(s, OverdueScan)
  {
    forall i: nat | i < |s.db.invoices| && FallsOverdue(s.db.invoices[i], s.now) ensures !Locked(s, i) {
      UnlockedAfterDraft(s, i);
    }
  }

  /** The calls of one statement and its events. */
  lemma DispatchingAlone(s: State, c: Call) returns (labels: seq<Label>, t: State)
    requires Inv(s) && Unblocked(s, c)
    requires match c
             case Create(_, items, rate, _, _, clientKnown, numberFree) =>
               clientKnown && numberFree && Store(items, rate).Some?
             case SendCall(org, id) => CanSend(s.db, org, id)
             case CancelCall(org, id) => CanCancel(s.db, org, id)
             case OverdueTick => true
             case _ => false
    ensures RunsTo(s, labels, t) && OneMore(s, t, Dispatching([]))
    ensures BooksOf(t) == Serve(BooksOf(s), c, s.now)
  {
    match c
    case Create(org, items, rate, currency, due, _, _) =>
      labels, t := SpawnAndDispatch(s, CreateInvoice(org, items, rate, Store(items, rate).value, currency, due),
                                    [Event(InvoiceCreated, |s.db.invoices|)]);
    case SendCall(org, id) => labels, t := SpawnAndDispatch(s, SendInvoice(org, id), [Event(InvoiceSent, id)]);
    case CancelCall(org, id) =>
      labels, t := SpawnAndDispatch(s, CancelInvoice(org, id), [Event(InvoiceCancelled, id)]);
    case OverdueTick =>
      OverdueEnabled(s);
      labels, t := SpawnAndDispatch(s, OverdueScan, OverdueEvents(s.db.invoices, s.now));
  }

  predicate Accepted(b: Books, c: Call) {
    match c
    case Create(_, items, rate, _, _, clientKnown, numberFree) =>
      clientKnown && numberFree && Store(items, rate).Some?
    case Update(org, id, items, rate, _, _) =>
      CanEdit(b.db, org, id) && Recomputed(b.db.invoices[id], items, rate).Some?
    case SendCall(org, id) => CanSend(b.db, org, id)
    case CancelCall(org, id) => CanCancel(b.db, org, id)
    case ViewCall(org, id) => Owned(b.db, org, id)
    case OverdueTick => true
    case Checkout(org, id, currencyKnown, _) => Payable(b.db, org, id) && currencyKnown
    case Refund(org, id, _, stripeOk) => Refundable(b.db, org, id) && stripeOk
  }

  lemma RefusedChangesNothing(b: Books, c: Call, now: int)
    requires !Accepted(b, c)
    ensures Serve(b, c, now) == b
  {
  }

  /** Every endpoint and the cron, run alone from a reachable state while no editor holds its row:
      the steps of its handler, uninterrupted, leave the tables and the log its method leaves. */
  lemma CallAlone(s: State, c: Call) returns (labels: seq<Label>, t: State)
    requires Inv(s) && Unblocked(s, c)
    ensures RunsTo(s, labels, t) && BooksOf(t) == Serve(BooksOf(s), c, s.now)
    ensures if Accepted(BooksOf(s), c) then exists x :: OneMore(s, t, x) && Finished(x) else t == s
  {
    if !Accepted(BooksOf(s), c) {
      RefusedChangesNothing(BooksOf(s), c, s.now);
      labels, t := [], s;
      return;
    }
    match c
    case Update(_, _, _, _, _, _) =>
      labels, t := UpdateAlone(s, c);
      assert OneMore(s, t, Done);
    case ViewCall(org, id) =>
      OneStep(s, ViewInvoice(org, id));
      labels, t := [ViewInvoice(org, id)], Step(s, ViewInvoice(org, id));
      assert OneMore(s, t, Done);
    case Checkout(_, _, _, _) =>
      labels, t := CheckoutAlone(s, c);
      assert OneMore(s, t, Done);
    case Refund(_, _, _, _) =>
      labels, t := RefundAlone(s, c);
      assert OneMore(s, t, Done);
    case _ =>
      labels, t := DispatchingAlone(s, c);
      assert OneMore(s, t, Dispatching([]));
  }

  // ---------- the success handler ----------

  lemma RecordedAlone(s: State, intent: string, row: nat) returns (labels: seq<Label>, t: State)
    requires Inv(s) && ReturnedRow(s.db, intent, row)
    ensures RunsTo(s, labels, t) && Inv(t)
    ensures t == s.(db := RecordSuccess(s.db, intent, s.now),
                    handlers := s.handlers + [SuccessRecorded(row, s.db.payments[row].invoice)])
  {
    var l := IntentSucceeded(intent, row);
    OneStep(s, l);
    StepKeepsInv(s, l);
    labels, t := [l], Step(s, l);
  }

  /** From the recorded success to its announcement. */
  lemma AnnouncedAlone(s: State, h: nat) returns (labels: seq<Label>, t: State)
    requires Inv(s) && At(s, h) && s.handlers[h].SuccessRecorded?
    ensures RunsTo(s, labels, t) && Inv(t)
    ensures var c := s.handlers[h];
            t == s.(handlers := s.handlers[h := SuccessAnnounced(c.payment, c.invoice)],
                    log := s.log + [Event(PaymentSucceeded, c.payment)])
  {
    OneStep(s, Dispatch(h));
    StepKeepsInv(s, Dispatch(h));
    labels, t := [Dispatch(h)], Step(s, Dispatch(h));
  }

  function Announcing(i: nat, flipped: bool): Handler {
    if flipped then Dispatching([Event(InvoicePaid, i)]) else Done
  }

  /** From the decision to the status write. */
  lemma DecidedAlone(s: State, h: nat) returns (labels: seq<Label>, t: State)
    requires Inv(s) && At(s, h) && s.handlers[h].TransitionDecided? && s.handlers[h].invoice < |s.db.invoices|
    requires s.db.invoices[s.handlers[h].invoice].status != Draft
    ensures RunsTo(s, labels, t) && t.now == s.now && t.log == s.log
    ensures var c := s.handlers[h];
            && t.db == WriteInvoiceStatus(s.db, c.invoice, c.next, s.now)
            && t.handlers == s.handlers[h := Announcing(c.invoice, c.prev != Paid && c.next == Paid)]
  {
    UnlockedAfterDraft(s, s.handlers[h].invoice);
    OneStep(s, WriteStatus(h));
    labels, t := [WriteStatus(h)], Step(s, WriteStatus(h));
  }

  /** From the announcement to the status write. */
  lemma WrittenAlone(s: State, h: nat) returns (labels: seq<Label>, t: State)
    requires Inv(s) && At(s, h) && s.handlers[h].SuccessAnnounced? && s.handlers[h].invoice < |s.db.invoices|
    requires s.db.invoices[s.handlers[h].invoice].status != Draft
    ensures RunsTo(s, labels, t) && t.now == s.now && t.log == s.log
    ensures var (db, flipped) := Transition(s.db, s.handlers[h].invoice, s.now);
            t.db == db && t.handlers == s.handlers[h := Announcing(s.handlers[h].invoice, flipped)]
  {
    var mid := Step(s, Snapshot(h));
    StepKeepsInv(s, Snapshot(h));
    OneStep(s, Snapshot(h));
    labels, t := [Snapshot(h)], mid;
    if mid.handlers[h].TransitionDecided? {
      var rest;
      rest, t := DecidedAlone(mid, h);
      Join(s, labels, mid, rest, t);
      labels := labels + rest;
    }
  }

  /** From the announced success to the end, or to the status write. */
  lemma SettledAlone(s: State, h: nat, steps: nat) returns (labels: seq<Label>, t: State)
    requires Inv(s) && At(s, h) && s.handlers[h].SuccessAnnounced? && s.handlers[h].invoice < |s.db.invoices|
    requires s.db.invoices[s.handlers[h].invoice].status != Draft && steps >= 3
    ensures RunsTo(s, labels, t)
    ensures var (db, flipped) := Transition(s.db, s.handlers[h].invoice, s.now);
            BooksOf(t) == Books(db, s.log + if flipped && steps > 3
                                            then [Event(InvoicePaid, s.handlers[h].invoice)] else [])
    ensures steps > 3 ==> |t.handlers| == |s.handlers| && Finished(t.handlers[h])
  {
    labels, t := WrittenAlone(s, h);
    if steps > 3 && t.handlers[h].Dispatching? {
      var mid, rest := t, [];
      rest, t := DispatchAll(mid, h);
      Join(s, labels, mid, rest, t);
      labels := labels + rest;
    }
  }

  lemma ReturnedRowLinked(s: State, intent: string, row: nat)
    requires Inv(s) && ReturnedRow(s.db, intent, row)
    ensures var id := s.db.payments[row].invoice; id < |s.db.invoices| && s.db.invoices[id].status != Draft
  {
    assert PaymentOk(s.db, s.db.payments[row]);
  }

  /** The first two steps, or what remains of them. */
  lemma StartedAlone(s: State, intent: string, row: nat, steps: nat) returns (labels: seq<Label>, t: State)
    requires Inv(s) && ReturnedRow(s.db, intent, row) && steps <= 2
    ensures s.db.payments[row].invoice < |s.db.invoices|
    ensures RunsTo(s, labels, t) && Inv(t) && t.now == s.now
    ensures BooksOf(t) == Succeed(BooksOf(s), intent, row, s.now, steps)
    ensures steps == 2 ==> t.handlers == s.handlers + [SuccessAnnounced(row, s.db.payments[row].invoice)]
  {
    ReturnedRowLinked(s, intent, row);
    labels, t := [], s;
    if steps > 0 {
      labels, t := RecordedAlone(s, intent, row);
    }
    if steps > 1 {
      var mid, rest := t, [];
      rest, t := AnnouncedAlone(mid, |s.handlers|);
      Join(s, labels, mid, rest, t);
      labels := labels + rest;
    }
  }

  /** The success handler alone, run to its end or stopped after any number of steps. */
  lemma SuccessAlone(s: State, intent: string, row: nat, steps: nat) returns (labels: seq<Label>, t: State)
    requires Inv(s) && ReturnedRow(s.db, intent, row)
    ensures s.db.payments[row].invoice < |s.db.invoices|
    ensures RunsTo(s, labels, t) && BooksOf(t) == Succeed(BooksOf(s), intent, row, s.now, steps)
    ensures steps > 3 ==> |t.handlers| == |s.handlers| + 1 && Finished(t.handlers[|s.handlers|])
  {
    ReturnedRowLinked(s, intent, row);
    labels, t := StartedAlone(s, intent, row, if steps < 2 then steps else 2);
    if steps > 2 {
      var mid, rest := t, [];
      rest, t := SettledAlone(mid, |s.handlers|, steps);
      Join(s, labels, mid, rest, t);
      labels := labels + rest;
    }
  }

  lemma FailureAlone(s: State, intent: string, row: nat, steps: nat) returns (labels: seq<Label>, t: State)
    requires ReturnedRow(s.db, intent, row)
    ensures RunsTo(s, labels, t) && BooksOf(t) == Fail(BooksOf(s), intent, row, steps)
  {
    var l := IntentFailed(intent, row);
    labels, t := [], s;
    if steps == 1 {
      OneStep(s, l);
      labels, t := [l], Step(s, l);
    } else if steps > 1 {
      labels, t := SpawnAndDispatch(s, l, [Event(PaymentFailed, row)]);
    }
  }

  lemma InvLinks(s: State)
    requires Inv(s)
    ensures Linked(s.db)
  {
    forall p | 0 <= p < |s.db.payments| ensures s.db.payments[p].invoice < |s.db.invoices| {
      assert PaymentOk(s.db, s.db.payments[p]);
    }
  }

  /** Every Stripe event handled alone from a reachable state, to the end or up to any failing
      statement: its steps leave the tables and the log its arm leaves. */
  lemma EventAlone(s: State, e: StripeEvent, env: Env) returns (labels: seq<Label>, t: State)
    requires Inv(s) && env.now == s.now
    ensures Linked(s.db)
    ensures RunsTo(s, labels, t) && BooksOf(t) == HandleEvent(BooksOf(s), e, env)
  {
    InvLinks(s);
    labels, t := [], s;
    match e
    case CheckoutCompleted(session, intent) =>
      if Steps(env) > 0 {
        OneStep(s, IntentLinked(session, intent));
        labels, t := [IntentLinked(session, intent)], Step(s, IntentLinked(session, intent));
      }
    case IntentSucceededEvent(intent) =>
      if row :| Chosen(s.db.payments, intent, env.hint) == Some(row) {
        labels, t := SuccessAlone(s, intent, row, Steps(env));
      }
    case IntentFailedEvent(intent) =>
      if row :| Chosen(s.db.payments, intent, env.hint) == Some(row) {
        labels, t := FailureAlone(s, intent, row, Steps(env));
      }
    case OtherEvent =>
  }

  // ---------- twice, and halfway ----------

  lemma RecordKeepsOk(db: Tables, intent: string, now: int)
    requires PaymentsOk(db)
    ensures PaymentsOk(RecordSuccess(db, intent, now))
  {
    forall p | 0 <= p < |db.payments|
      ensures PaymentOk(RecordSuccess(db, intent, now), RecordSuccess(db, intent, now).payments[p])
    {
      assert PaymentOk(db, db.payments[p]);
    }
  }

  /** Run alone to the end, a second delivery about the same intent changes nothing but the log,
      and never announces invoice.paid again. */
  lemma SuccessIsIdempotent(b: Books, intent: string, row: nat, now: int, later: int)
    requires InvoicesOk(b.db) && PaymentsOk(b.db) && ReturnedRow(b.db, intent, row)
    ensures b.db.payments[row].invoice < |b.db.invoices|
    ensures var once := Succeed(b, intent, row, now, ALL);
            && ReturnedRow(once.db, intent, row)
            && Succeed(once, intent, row, later, ALL) == Books(once.db, once.log + [Event(PaymentSucceeded, row)])
  {
    assert PaymentOk(b.db, b.db.payments[row]);
    var id := b.db.payments[row].invoice;
    var once := Succeed(b, intent, row, now, ALL);
    var recorded := RecordSuccess(b.db, intent, now);
    assert RecordSuccess(once.db, intent, later).payments == once.db.payments;
    RecordKeepsOk(b.db, intent, now);
    NeverPartial(recorded, id);
    assert InvoiceOk(b.db.invoices[id]);
    var again := RecordSuccess(once.db, intent, later);
    assert again == once.db;
    assert AmountPaid(again, id) == AmountPaid(recorded, id);
    assert Transition(again, id, later).0.invoices == once.db.invoices;
  }

  /** Stopped between its first write and its last, the handler leaves a payment that succeeded
      and an invoice as it was; run to the end it would have left it paid, for a nonnegative total. */
  lemma StoppedHalfway(b: Books, intent: string, row: nat, now: int, steps: nat)
    requires PaymentsOk(b.db) && ReturnedRow(b.db, intent, row) && 1 <= steps <= 2
    ensures var id := b.db.payments[row].invoice;
            && id < |b.db.invoices|
            && Succeed(b, intent, row, now, steps).db.payments[row].status == Succeeded
            && Succeed(b, intent, row, now, steps).db.invoices == b.db.invoices
            && (b.db.invoices[id].money.total >= 0 ==>
                  Succeed(b, intent, row, now, ALL).db.invoices[id].status == Paid)
  {
    assert PaymentOk(b.db, b.db.payments[row]);
    var id, recorded := b.db.payments[row].invoice, RecordSuccess(b.db, intent, now);
    if b.db.invoices[id].money.total >= 0 {
      RecordKeepsOk(b.db, intent, now);
      PaysDecides(recorded, row, id);
    }
  }
}
