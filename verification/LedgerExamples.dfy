/** A concrete run in which two overlapping success handlers both announce the same payment. */
module LedgerExamples {
  import opened Wrappers
  import opened Money
  import opened Ledger
  import opened LedgerSteps
  import opened LedgerRuns
  import opened Sums

  ghost predicate EndsIn(states: seq<State>, labels: seq<Label>, s: State) {
    IsRun(states, labels) && states[|labels|] == s
  }

  lemma Extend(states: seq<State>, labels: seq<Label>, s: State, l: Label)
    returns (states': seq<State>, labels': seq<Label>)
    requires EndsIn(states, labels, s) && Enabled(s, l)
    ensures EndsIn(states', labels', Step(s, l))
  {
    states', labels' := states + [Step(s, l)], labels + [l];
  }

  const MONEY := Amounts(100, 0, 0, 100)
  const ITEMS := [LineItem(1.0, 1.0)]
  const SENT := Invoice(0, Sent, ITEMS, MONEY, "USD", 10, Some(0), None, None)
  const PENDING := Payment(0, 0, Some("cs"), Some("pi"), 100, "USD", Pending, None)
  const CREATED := Event(InvoiceCreated, 0)
  const ANNOUNCED := Event(InvoiceSent, 0)
  const FINISHED := Dispatching([])

  /** The invoice is sent, its checkout has a linked intent, nothing else is in progress. */
  const READY := State(Tables([SENT], [PENDING]), [FINISHED, FINISHED, Done, Done], [CREATED, ANNOUNCED], 0, [], {})

  lemma NoEditors(s: State, id: nat)
    requires forall h | 0 <= h < |s.handlers| :: !s.handlers[h].Editing?
    ensures !Locked(s, id)
  {
  }

  const DRAFT := Invoice(0, Draft, ITEMS, MONEY, "USD", 10, None, None, None)

  lemma ItemsStored()
    ensures Store(ITEMS, 0.0) == Some(MONEY)
  {
    assert ITEMS[..0] == [];
    assert Subtotal(ITEMS) == 1.0;
  }

  lemma CreatedRun() returns (states: seq<State>, labels: seq<Label>)
    ensures EndsIn(states, labels, State(Tables([DRAFT], []), [FINISHED], [CREATED], 0, [], {}))
  {
    var s0 := State(Tables([], []), [], [], 0, [], {});
    ItemsStored();
    states, labels := [s0], [];
    states, labels := Extend(states, labels, s0, CreateInvoice(0, ITEMS, 0.0, MONEY, "USD", 10));
    var s1 := State(Tables([DRAFT], []), [Dispatching([CREATED])], [], 0, [], {});
    assert EndsIn(states, labels, s1);
    states, labels := Extend(states, labels, s1, Dispatch(0));
    assert [CREATED][1..] == [];
  }

  lemma SentRun() returns (states: seq<State>, labels: seq<Label>)
    ensures EndsIn(states, labels, State(Tables([SENT], []), [FINISHED, FINISHED], [CREATED, ANNOUNCED], 0, [], {}))
  {
    states, labels := CreatedRun();
    var s2 := State(Tables([DRAFT], []), [FINISHED], [CREATED], 0, [], {});
    NoEditors(s2, 0);
    states, labels := Extend(states, labels, s2, SendInvoice(0, 0));
    var s3 := State(Tables([SENT], []), [FINISHED, Dispatching([ANNOUNCED])], [CREATED], 0, [], {});
    assert EndsIn(states, labels, s3);
    states, labels := Extend(states, labels, s3, Dispatch(1));
    assert [ANNOUNCED][1..] == [];
  }

  lemma ReadyRun() returns (states: seq<State>, labels: seq<Label>)
    ensures EndsIn(states, labels, READY)
  {
    states, labels := SentRun();
    var s4 := State(Tables([SENT], []), [FINISHED, FINISHED], [CREATED, ANNOUNCED], 0, [], {});
    states, labels := Extend(states, labels, s4, LoadCheckout(0, 0));
    var s5 := s4.(handlers := [FINISHED, FINISHED, CheckoutLoaded(0, 0, 100, "USD")]);
    assert EndsIn(states, labels, s5);
    states, labels := Extend(states, labels, s5, InsertCheckout(2));
    var row := PENDING.(session := None, intent := None);
    var s6 := s5.(db := Tables([SENT], [row]), handlers := [FINISHED, FINISHED, CheckoutInserted(0)]);
    assert EndsIn(states, labels, s6);
    states, labels := Extend(states, labels, s6, StoreSession(2, "cs"));
    var s7 := s6.(db := Tables([SENT], [PENDING.(intent := None)]), handlers := [FINISHED, FINISHED, Done]);
    assert EndsIn(states, labels, s7);
    states, labels := Extend(states, labels, s7, IntentLinked("cs", "pi"));
    assert Step(s7, IntentLinked("cs", "pi")).db.payments == [PENDING];
  }

  const PAID_ROW := PENDING.(status := Succeeded, paidAt := Some(0))
  const PAID_LOG := [CREATED, ANNOUNCED, Event(PaymentSucceeded, 0), Event(PaymentSucceeded, 0)]

  /** Two deliveries about the same intent are both recorded and both announced. */
  lemma RecordedTwiceRun() returns (states: seq<State>, labels: seq<Label>)
    ensures EndsIn(states, labels, State(Tables([SENT], [PAID_ROW]),
      [FINISHED, FINISHED, Done, Done, SuccessAnnounced(0, 0), SuccessAnnounced(0, 0)], PAID_LOG, 0, [], {}))
  {
    states, labels := ReadyRun();
    states, labels := Extend(states, labels, READY, IntentSucceeded("pi", 0));
    var base := READY.handlers;
    var s1 := READY.(db := Tables([SENT], [PAID_ROW]), handlers := base + [SuccessRecorded(0, 0)]);
    assert Step(READY, IntentSucceeded("pi", 0)).db.payments == [PAID_ROW];
    assert EndsIn(states, labels, s1);
    states, labels := Extend(states, labels, s1, IntentSucceeded("pi", 0));
    var s2 := s1.(handlers := base + [SuccessRecorded(0, 0), SuccessRecorded(0, 0)]);
    assert Step(s1, IntentSucceeded("pi", 0)).db.payments == [PAID_ROW];
    assert EndsIn(states, labels, s2);
    states, labels := Extend(states, labels, s2, Dispatch(4));
    var s3 := s2.(handlers := base + [SuccessAnnounced(0, 0), SuccessRecorded(0, 0)],
                  log := [CREATED, ANNOUNCED, Event(PaymentSucceeded, 0)]);
    assert EndsIn(states, labels, s3);
    states, labels := Extend(states, labels, s3, Dispatch(5));
  }

  lemma PaidInFull(db: Tables)
    requires db == Tables([SENT], [PAID_ROW])
    ensures Decide(db.invoices[0].money.total, AmountPaid(db, 0)) == Some(Paid)
  {
    SumPush([], PAID_ROW, SucceededAmount(0));
    assert [] + [PAID_ROW] == db.payments;
  }

  /** The promise that invoice.paid is emitted exactly once fails: both handlers read `sent`, both
      write `paid`, and the event goes out twice in a run where nothing failed. */
  lemma OverlapDispatchesTwice() returns (states: seq<State>, labels: seq<Label>)
    ensures IsRun(states, labels) && 0 !in states[|labels|].aborted && Settled(states[|labels|], 0)
    ensures Dispatched(states[|labels|], PaidEvent(0)) == 2
  {
    states, labels := RecordedTwiceRun();
    var base := READY.handlers;
    var s4 := State(Tables([SENT], [PAID_ROW]),
                    base + [SuccessAnnounced(0, 0), SuccessAnnounced(0, 0)], PAID_LOG, 0, [], {});
    assert EndsIn(states, labels, s4);
    PaidInFull(s4.db);
    states, labels := Extend(states, labels, s4, Snapshot(4));
    var s5 := s4.(handlers := base + [DECIDED, SuccessAnnounced(0, 0)], early := [0]);
    assert EndsIn(states, labels, s5);
    states, labels := Extend(states, labels, s5, Snapshot(5));
    var s6 := s5.(handlers := base + [DECIDED, DECIDED], early := [0, 0]);
    assert EndsIn(states, labels, s6);
    states, labels := FinishBoth(states, labels, s6);
  }

  const DECIDED := TransitionDecided(0, 0, Sent, Paid)
  const OWED := Dispatching([PaidEvent(0)])
  const PAID := SENT.(status := Paid, paidAt := Some(0))

  lemma WriteBoth(states: seq<State>, labels: seq<Label>, s6: State) returns (states': seq<State>, labels': seq<Label>)
    requires EndsIn(states, labels, s6)
    requires s6 == State(Tables([SENT], [PAID_ROW]), READY.handlers + [DECIDED, DECIDED], PAID_LOG, 0, [0, 0], {})
    ensures EndsIn(states', labels',
              State(Tables([PAID], [PAID_ROW]), READY.handlers + [OWED, OWED], PAID_LOG, 0, [0, 0], {}))
  {
    NoEditors(s6, 0);
    states', labels' := Extend(states, labels, s6, WriteStatus(4));
    var s7 := s6.(db := Tables([PAID], [PAID_ROW]), handlers := READY.handlers + [OWED, DECIDED]);
    assert EndsIn(states', labels', s7);
    NoEditors(s7, 0);
    states', labels' := Extend(states', labels', s7, WriteStatus(5));
  }

  lemma FinishBoth(states: seq<State>, labels: seq<Label>, s6: State) returns (states': seq<State>, labels': seq<Label>)
    requires EndsIn(states, labels, s6)
    requires s6 == State(Tables([SENT], [PAID_ROW]), READY.handlers + [DECIDED, DECIDED], PAID_LOG, 0, [0, 0], {})
    ensures IsRun(states', labels') && 0 !in states'[|labels'|].aborted && Settled(states'[|labels'|], 0)
    ensures Dispatched(states'[|labels'|], PaidEvent(0)) == 2
  {
    states', labels' := WriteBoth(states, labels, s6);
    var s8 := State(Tables([PAID], [PAID_ROW]), READY.handlers + [OWED, OWED], PAID_LOG, 0, [0, 0], {});
    states', labels' := Extend(states', labels', s8, Dispatch(4));
    assert [PaidEvent(0)][1..] == [];
    var s9 := s8.(handlers := READY.handlers + [FINISHED, OWED], log := PAID_LOG + [PaidEvent(0)]);
    assert EndsIn(states', labels', s9);
    states', labels' := Extend(states', labels', s9, Dispatch(5));
    var s10 := s9.(handlers := READY.handlers + [FINISHED, FINISHED],
                   log := PAID_LOG + [PaidEvent(0)] + [PaidEvent(0)]);
    assert EndsIn(states', labels', s10);
    SumPush(PAID_LOG + [PaidEvent(0)], PaidEvent(0), Is(PaidEvent(0)));
    SumPush(PAID_LOG, PaidEvent(0), Is(PaidEvent(0)));
    SumZeroLog();
  }

  lemma SumZeroLog()
    ensures Sum(PAID_LOG, Is(PaidEvent(0))) == 0
  {
    SumZero(PAID_LOG, Is(PaidEvent(0)));
  }
}
