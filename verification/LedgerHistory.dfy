/** What whole runs say about where sessions, intents, payments and events come from. */
module LedgerHistory {
  import opened Wrappers
  import opened Ledger
  import opened LedgerSteps
  import opened LedgerRuns
  import opened LedgerEffects
  import opened Sums

  // ---------- sessions and intents ----------

  /** Step `k` stores the session on payment `p`. */
  predicate StoresAt(states: seq<State>, labels: seq<Label>, k: nat, session: string, p: nat) {
    && k < |labels| && k < |states| && labels[k].StoreSession? && labels[k].session == session
    && At(states[k], labels[k].h) && states[k].handlers[labels[k].h].CheckoutInserted?
    && states[k].handlers[labels[k].h].payment == p
  }

  /** Step `k` is the event that links the session's payments to the intent. */
  predicate LinksAt(labels: seq<Label>, k: nat, session: string, intent: string) {
    k < |labels| && labels[k] == IntentLinked(session, intent)
  }

  lemma SessionStep(states: seq<State>, labels: seq<Label>, k: nat, p: nat)
    requires IsRun(states, labels) && k < |labels| && p < |states[k + 1].db.payments|
    requires states[k + 1].db.payments[p].session.Some?
    ensures var session := states[k + 1].db.payments[p].session.value;
            || StoresAt(states, labels, k, session, p)
            || (p < |states[k].db.payments| && states[k].db.payments[p].session == Some(session))
  {
    RunInv(states, labels, k);
    RowsAdded(states[k], labels[k]);
    if p < |states[k].db.payments| { PaymentExactly(states[k], labels[k], p); }
  }

  /** A payment's session was stored on it by a checkout. */
  lemma {:induction false} SessionWasStored(states: seq<State>, labels: seq<Label>, k: nat, p: nat)
    requires IsRun(states, labels) && k < |states| && p < |states[k].db.payments|
    requires states[k].db.payments[p].session.Some?
    ensures exists j: nat :: j < k && StoresAt(states, labels, j, states[k].db.payments[p].session.value, p)
  {
    if k > 0 {
      SessionStep(states, labels, k - 1, p);
      if !StoresAt(states, labels, k - 1, states[k].db.payments[p].session.value, p) {
        SessionWasStored(states, labels, k - 1, p);
      }
    }
  }

  lemma IntentStep(states: seq<State>, labels: seq<Label>, k: nat, p: nat)
    requires IsRun(states, labels) && k < |labels| && p < |states[k + 1].db.payments|
    requires states[k + 1].db.payments[p].intent.Some?
    ensures p < |states[k].db.payments|
    ensures var intent := states[k + 1].db.payments[p].intent.value;
            || states[k].db.payments[p].intent == Some(intent)
            || (intent != "" && states[k].db.payments[p].session.Some?
                && LinksAt(labels, k, states[k].db.payments[p].session.value, intent))
  {
    RunInv(states, labels, k);
    RowsAdded(states[k], labels[k]);
    if p < |states[k].db.payments| { PaymentExactly(states[k], labels[k], p); }
  }

  /** A payment's intent was linked from a session stored on it before. */
  ghost predicate LinkedFrom(states: seq<State>, labels: seq<Label>, intent: string, session: string, p: nat) {
    && (exists j: nat :: StoresAt(states, labels, j, session, p))
    && exists j: nat :: LinksAt(labels, j, session, intent)
  }

  lemma {:induction false} IntentWasLinked(states: seq<State>, labels: seq<Label>, k: nat, p: nat)
    returns (session: string)
    requires IsRun(states, labels) && k < |states| && p < |states[k].db.payments|
    requires states[k].db.payments[p].intent.Some?
    ensures states[k].db.payments[p].intent.value != ""
    ensures LinkedFrom(states, labels, states[k].db.payments[p].intent.value, session, p)
  {
    var intent := states[k].db.payments[p].intent.value;
    IntentStep(states, labels, k - 1, p);
    if states[k - 1].db.payments[p].intent == Some(intent) {
      session := IntentWasLinked(states, labels, k - 1, p);
    } else {
      session := states[k - 1].db.payments[p].session.value;
      SessionWasStored(states, labels, k - 1, p);
      assert LinksAt(labels, k - 1, session, intent);
    }
  }

  /** No session is stored on two payments: Stripe gives each checkout its own. */
  ghost predicate SessionsApart(states: seq<State>, labels: seq<Label>) {
    forall j: nat, k: nat, session, p: nat, q: nat |
      StoresAt(states, labels, j, session, p) && StoresAt(states, labels, k, session, q) :: p == q
  }

  /** No intent is linked from two sessions. */
  ghost predicate LinksApart(labels: seq<Label>) {
    forall j: nat, k: nat, a, b, intent |
      LinksAt(labels, j, a, intent) && LinksAt(labels, k, b, intent) && intent != "" :: a == b
  }

  /** Where sessions and their intents are Stripe's own, one each, no two payments ever carry the
      same intent. */
  lemma IntentsUnique(states: seq<State>, labels: seq<Label>, k: nat, p: nat, q: nat)
    requires IsRun(states, labels) && SessionsApart(states, labels) && LinksApart(labels)
    requires k < |states| && p < |states[k].db.payments| && q < |states[k].db.payments|
    requires states[k].db.payments[p].intent.Some? && states[k].db.payments[p].intent == states[k].db.payments[q].intent
    ensures p == q
  {
    var intent := states[k].db.payments[p].intent.value;
    var a := IntentWasLinked(states, labels, k, p);
    var b := IntentWasLinked(states, labels, k, q);
    var i: nat :| LinksAt(labels, i, a, intent);
    var j: nat :| LinksAt(labels, j, b, intent);
    assert a == b;
    var m: nat :| StoresAt(states, labels, m, a, p);
    var n: nat :| StoresAt(states, labels, n, a, q);
  }

  /** So there a settled invoice for a nonnegative total with a payment that stands succeeded is
      paid. */
  lemma SucceededMeansPaidWithStripe(states: seq<State>, labels: seq<Label>, k: nat, i: nat, p: nat)
    requires IsRun(states, labels) && SessionsApart(states, labels) && LinksApart(labels) && k < |states|
    requires i !in states[k].aborted && Settled(states[k], i) && Pays(states[k].db, p, i)
    ensures states[k].db.invoices[i].status == Paid
  {
    forall m | 0 <= m < |labels| && labels[m].IntentSucceeded?
      ensures OneInvoicePerIntent(states[m].db, labels[m].intent)
    {
      var payments := states[m].db.payments;
      forall a, b | 0 <= a < |payments| && 0 <= b < |payments|
        && HasIntent(payments[a], labels[m].intent) && HasIntent(payments[b], labels[m].intent)
        ensures payments[a].invoice == payments[b].invoice
      {
        IntentsUnique(states, labels, m, a, b);
      }
    }
    SucceededMeansPaid(states, labels, k, i, p);
  }

  // ---------- a paid invoice and its payments ----------

  /** No checkout that found the invoice payable has still to insert its payment. */
  ghost predicate NoCheckoutUnderway(s: State, i: nat) {
    forall h | 0 <= h < |s.handlers| && s.handlers[h].CheckoutLoaded? :: s.handlers[h].invoice != i
  }

  ghost predicate Closed(s: State, i: nat) {
    StatusAt(s, i) == Some(Paid) && NoCheckoutUnderway(s, i)
  }

  lemma ClosedStays(s: State, l: Label, i: nat)
    requires Inv(s) && Enabled(s, l) && Closed(s, i)
    ensures Closed(Step(s, l), i)
  {
    BecomesPaid(s, l, i);
  }

  /** No payment of the invoice from row `n` on. */
  predicate NoneFrom(db: Tables, n: nat, i: nat) {
    forall p | n <= p < |db.payments| :: db.payments[p].invoice != i
  }

  lemma NoneAdded(s: State, l: Label, n: nat, i: nat)
    requires Inv(s) && Enabled(s, l) && Closed(s, i) && NoneFrom(s.db, n, i)
    ensures NoneFrom(Step(s, l).db, n, i)
  {
    RowsAdded(s, l);
    forall p | n <= p < |Step(s, l).db.payments| ensures Step(s, l).db.payments[p].invoice != i {
      if p < |s.db.payments| { StepPaymentGrows(s, l, p); }
    }
  }

  /** Once an invoice is paid and no checkout of it is underway, no payment of it is ever added. */
  lemma {:induction false} PaidGetsNoNewPayment(states: seq<State>, labels: seq<Label>, j: nat, k: nat, i: nat)
    requires IsRun(states, labels) && j <= k < |states| && Closed(states[j], i)
    ensures Closed(states[k], i) && NoneFrom(states[k].db, |states[j].db.payments|, i)
  {
    if j < k {
      PaidGetsNoNewPayment(states, labels, j, k - 1, i);
      RunInv(states, labels, k - 1);
      ClosedStays(states[k - 1], labels[k - 1], i);
      NoneAdded(states[k - 1], labels[k - 1], |states[j].db.payments|, i);
    }
  }

  // ---------- each event exactly once ----------

  /** A step adds a one-shot event exactly when it takes the invoice into the status reported. */
  lemma AddsExactly(s: State, l: Label, kind: EventKind, i: nat)
    requires Inv(s) && Enabled(s, l) && OneShot(kind)
    ensures Adds(s, l, Event(kind, i))
            == if StatusAt(s, i) != Some(Reports(kind)) && StatusAt(Step(s, l), i) == Some(Reports(kind)) then 1 else 0
  {
    AddsOneShot(s, l, kind, i);
    if i < |s.db.invoices| {
      InvoiceExactly(s, l, i);
      assert InvoiceOk(s.db.invoices[i]);
    } else {
      RowsAdded(s, l);
    }
    if l.OverdueScan? { OverdueEventsOnce(s.db.invoices, s.now, Event(kind, i)); }
  }

  /** At some moment up to `k` the invoice had the status. */
  ghost predicate Was(states: seq<State>, k: nat, i: nat, status: InvoiceStatus)
    requires k < |states|
  {
    exists m: nat :: m <= k && StatusAt(states[m], i) == Some(status)
  }

  /** No handler that still had the event to dispatch ended early. */
  ghost predicate Kept(states: seq<State>, labels: seq<Label>, e: Event)
    requires IsRun(states, labels)
  {
    forall k | 0 <= k < |labels| && labels[k].Abort? :: Owes(e)(states[k].handlers[labels[k].h]) == 0
  }

  lemma KeptStepOwes(s: State, l: Label, e: Event)
    requires Enabled(s, l) && (l.Abort? ==> Owes(e)(s.handlers[l.h]) == 0)
    ensures Owed(Step(s, l), e) == Owed(s, e) + Adds(s, l, e)
  {
    StepOwes(s, l, e);
    if l.Abort? { ContinueOwes(s, l.h, s.db, Done, e); }
  }

  /** An invoice that had the status has reached it since. */
  lemma WasReached(states: seq<State>, labels: seq<Label>, m: nat, k: nat, i: nat, status: InvoiceStatus)
    requires IsRun(states, labels) && m <= k < |states| && status != PartiallyPaid
    requires StatusAt(states[m], i) == Some(status)
    ensures Reached(states[k], i, status)
  {
    RunGrows(states, labels, m, k);
    assert InvoiceGrows(states[m].db.invoices[i], states[k].db.invoices[i]);
  }

  lemma WasNext(states: seq<State>, k: nat, i: nat, status: InvoiceStatus)
    requires k + 1 < |states|
    ensures Was(states, k + 1, i, status) <==> Was(states, k, i, status) || StatusAt(states[k + 1], i) == Some(status)
  {
  }

  lemma {:induction false} OwedExactly(states: seq<State>, labels: seq<Label>, k: nat, kind: EventKind, i: nat)
    requires IsRun(states, labels) && k < |states| && OneShot(kind) && Kept(states, labels, Event(kind, i))
    ensures Owed(states[k], Event(kind, i)) == if Was(states, k, i, Reports(kind)) then 1 else 0
  {
    if k > 0 {
      var s, l, status := states[k - 1], labels[k - 1], Reports(kind);
      OwedExactly(states, labels, k - 1, kind, i);
      RunInv(states, labels, k - 1);
      KeptStepOwes(s, l, Event(kind, i));
      AddsExactly(s, l, kind, i);
      AddsOneShot(s, l, kind, i);
      WasNext(states, k - 1, i, status);
      if m: nat :| m <= k - 1 && StatusAt(states[m], i) == Some(status) {
        WasReached(states, labels, m, k - 1, i, status);
      }
    }
  }

  lemma NothingOwed(s: State, e: Event)
    requires forall h | 0 <= h < |s.handlers| :: Owes(e)(s.handlers[h]) == 0
    ensures Owed(s, e) == Dispatched(s, e)
  {
    SumZero(s.handlers, Owes(e));
  }

  /** invoice.sent, invoice.overdue and invoice.cancelled, once no handler owes the event and none
      that did ended early: dispatched exactly once if the invoice ever had that status, and
      otherwise never. */
  lemma AnnouncedExactly(states: seq<State>, labels: seq<Label>, k: nat, kind: EventKind, i: nat)
    requires IsRun(states, labels) && k < |states| && OneShot(kind) && Kept(states, labels, Event(kind, i))
    requires forall h | 0 <= h < |states[k].handlers| :: Owes(Event(kind, i))(states[k].handlers[h]) == 0
    ensures Dispatched(states[k], Event(kind, i)) == if Was(states, k, i, Reports(kind)) then 1 else 0
  {
    OwedExactly(states, labels, k, kind, i);
    NothingOwed(states[k], Event(kind, i));
  }

  lemma AddsCreated(s: State, l: Label, i: nat)
    requires Enabled(s, l)
    ensures Adds(s, l, Event(InvoiceCreated, i)) == if l.CreateInvoice? && i == |s.db.invoices| then 1 else 0
  {
    if l.OverdueScan? { OverdueEventsOnce(s.db.invoices, s.now, Event(InvoiceCreated, i)); }
  }

  lemma {:induction false} CreatedOwed(states: seq<State>, labels: seq<Label>, k: nat, i: nat)
    requires IsRun(states, labels) && k < |states| && Kept(states, labels, Event(InvoiceCreated, i))
    ensures Owed(states[k], Event(InvoiceCreated, i)) == if i < |states[k].db.invoices| then 1 else 0
  {
    if k > 0 {
      CreatedOwed(states, labels, k - 1, i);
      RunInv(states, labels, k - 1);
      KeptStepOwes(states[k - 1], labels[k - 1], Event(InvoiceCreated, i));
      AddsCreated(states[k - 1], labels[k - 1], i);
      RowsAdded(states[k - 1], labels[k - 1]);
    }
  }

  /** invoice.created goes out exactly once for each invoice there is. */
  lemma CreatedExactly(states: seq<State>, labels: seq<Label>, k: nat, i: nat)
    requires IsRun(states, labels) && k < |states| && Kept(states, labels, Event(InvoiceCreated, i))
    requires forall h | 0 <= h < |states[k].handlers| :: Owes(Event(InvoiceCreated, i))(states[k].handlers[h]) == 0
    ensures Dispatched(states[k], Event(InvoiceCreated, i)) == if i < |states[k].db.invoices| then 1 else 0
  {
    CreatedOwed(states, labels, k, i);
    NothingOwed(states[k], Event(InvoiceCreated, i));
  }
}
