/** `stripe_webhook`: claim the event's key, then run the handler for it. */
module WebhookDedup {
  import opened Wrappers
  import opened CacheStore
  import opened Ledger
  import opened LedgerSteps
  import opened Handlers
  import opened HandlersAlone

  const TTL: nat := 48 * 60 * 60

  /** A delivery with a valid signature, and what its handler would meet: `env.stop` says after
      how many steps it would fail. */
  datatype Delivery = Delivery(id: string, event: StripeEvent, env: Env)

  predicate Fails(d: Delivery) {
    d.env.stop.Some?
  }

  function DedupKey(id: string): string {
    "stripe:event:" + id
  }

  lemma DedupKeyInjective(a: string, b: string)
    requires DedupKey(a) == DedupKey(b)
    ensures a == b
  {
    assert DedupKey(a)[13..] == a && DedupKey(b)[13..] == b;
  }

  /** `finished` is a history variable: the ids of the events whose handler ran to its end. */
  datatype System = System(store: Store, books: Books, finished: seq<string>)

  function Receive(w: System, d: Delivery): System
    requires Linked(w.books.db)
  {
    var (store, first) := PutNew(w.store, DedupKey(d.id), "seen", TTL, d.env.now);
    if !first then w.(store := store)
    else
      System(store, HandleEvent(w.books, d.event, d.env), w.finished + if Fails(d) then [] else [d.id])
  }

  /** The endpoint past signature verification; Ok(false) is the deduplicated answer, Err the
      error answer that makes Stripe deliver again. */
  method StripeWebhook(cache: Cache, service: Service, d: Delivery) returns (r: Result<bool, ()>)
    requires Linked(service.Db())
    modifies cache, service
    ensures var w := Receive(System(old(cache.store), old(service.View()), []), d);
            cache.store == w.store && service.View() == w.books && (r == Ok(true) <==> w.finished == [d.id])
    ensures r == Ok(false) <==> Live(old(cache.store), DedupKey(d.id), d.env.now)
    ensures Linked(service.Db())
  {
    var first := cache.SetNxEx(DedupKey(d.id), "seen", TTL, d.env.now);
    if !first {
      return Ok(false);
    }
    var ok := service.HandleStripe(d.event, d.env);
    return if ok then Ok(true) else Err(());
  }

  // ---------- streams of deliveries ----------

  /** Processing a stream one delivery after the other. */
  function Process(w: System, stream: seq<Delivery>): (r: System)
    requires Linked(w.books.db)
    ensures Linked(r.books.db)
  {
    if stream == [] then w
    else
      var before := Process(w, stream[..|stream| - 1]);
      var d := stream[|stream| - 1];
      HandleEventKeepsLinks(before.books, d.event, d.env);
      Receive(before, d)
  }

  /** Handling each delivery, with no dedup store at all. */
  function HandleAll(b: Books, stream: seq<Delivery>): (r: Books)
    requires Linked(b.db)
    ensures Linked(r.db)
  {
    if stream == [] then b
    else
      var before := HandleAll(b, stream[..|stream| - 1]);
      var d := stream[|stream| - 1];
      HandleEventKeepsLinks(before, d.event, d.env);
      HandleEvent(before, d.event, d.env)
  }

  /** When the event last entered its handler, told from the times alone: a delivery enters when
      it is the first of its event, or comes 48 hours or more after the last one that entered. */
  function LastEntry(stream: seq<Delivery>, id: string): Option<int>
    decreases |stream|, 0
  {
    if stream == [] then None
    else
      var before, d := stream[..|stream| - 1], stream[|stream| - 1];
      if d.id == id && EntersAfter(before, d) then Some(d.env.now) else LastEntry(before, id)
  }

  predicate EntersAfter(before: seq<Delivery>, d: Delivery)
    decreases |before|, 1
  {
    match LastEntry(before, d.id)
    case None => true
    case Some(t) => d.env.now >= t + 172_800
  }

  /** The deliveries that enter, in order. */
  function Entering(stream: seq<Delivery>): seq<Delivery> {
    if stream == [] then []
    else
      var before, d := stream[..|stream| - 1], stream[|stream| - 1];
      Entering(before) + if EntersAfter(before, d) then [d] else []
  }

  function FinishedIds(stream: seq<Delivery>): seq<string> {
    if stream == [] then []
    else
      var d := stream[|stream| - 1];
      FinishedIds(stream[..|stream| - 1]) + if Fails(d) then [] else [d.id]
  }

  function Start(b: Books): System { System(map[], b, []) }

  /** The key is claimed, until 48 hours after its last entry, or it is not there. */
  predicate KeyIs(store: Store, key: string, entry: Option<int>) {
    match entry
    case None => key !in store
    case Some(t) => key in store && store[key].expiry == Some(t + TTL)
  }

  /** The keys claimed are those of the events that entered. */
  ghost predicate KeysMatch(store: Store, stream: seq<Delivery>) {
    forall id: string :: KeyIs(store, DedupKey(id), LastEntry(stream, id))
  }

  lemma Pushed(before: seq<Delivery>, d: Delivery)
    ensures forall id :: LastEntry(before + [d], id)
                         == if d.id == id && EntersAfter(before, d) then Some(d.env.now) else LastEntry(before, id)
    ensures Entering(before + [d]) == Entering(before) + if EntersAfter(before, d) then [d] else []
    ensures FinishedIds(before + [d]) == FinishedIds(before) + if Fails(d) then [] else [d.id]
  {
    assert (before + [d])[..|before|] == before;
  }

  lemma ClaimOwn(store: Store, key: string, entry: Option<int>, now: int)
    requires KeyIs(store, key, entry)
    ensures var (next, first) := PutNew(store, key, "seen", TTL, now);
            && first == (entry.Some? ==> now >= entry.value + TTL)
            && KeyIs(next, key, if first then Some(now) else entry)
  {
  }

  lemma ClaimOther(store: Store, key: string, entry: Option<int>, claimed: string, now: int)
    requires KeyIs(store, key, entry) && key != claimed
    ensures KeyIs(PutNew(store, claimed, "seen", TTL, now).0, key, entry)
  {
  }

  /** One more claim: it succeeds exactly for a delivery that enters. */
  lemma ClaimStep(store: Store, before: seq<Delivery>, d: Delivery)
    requires KeysMatch(store, before)
    ensures PutNew(store, DedupKey(d.id), "seen", TTL, d.env.now).1 == EntersAfter(before, d)
    ensures KeysMatch(PutNew(store, DedupKey(d.id), "seen", TTL, d.env.now).0, before + [d])
  {
    Pushed(before, d);
    ClaimOwn(store, DedupKey(d.id), LastEntry(before, d.id), d.env.now);
    var next := PutNew(store, DedupKey(d.id), "seen", TTL, d.env.now).0;
    forall id: string ensures KeyIs(next, DedupKey(id), LastEntry(before + [d], id)) {
      if id != d.id {
        if DedupKey(id) == DedupKey(d.id) { DedupKeyInjective(id, d.id); }
        ClaimOther(store, DedupKey(id), LastEntry(before, id), DedupKey(d.id), d.env.now);
      }
    }
  }

  lemma ProcessPush(w: System, before: seq<Delivery>, d: Delivery)
    requires Linked(w.books.db)
    ensures Process(w, before + [d]) == Receive(Process(w, before), d)
  {
    assert (before + [d])[..|before|] == before;
  }

  lemma HandleAllPush(b: Books, before: seq<Delivery>, d: Delivery)
    requires Linked(b.db)
    ensures HandleAll(b, before + [d]) == HandleEvent(HandleAll(b, before), d.event, d.env)
  {
    assert (before + [d])[..|before|] == before;
  }

  /** Every stream, with any retries, failures and times: the books are those of handling exactly
      the deliveries that enter, each as far as its handler gets. */
  lemma {:induction false} ProcessExactly(b: Books, stream: seq<Delivery>)
    requires Linked(b.db)
    ensures Process(Start(b), stream).books == HandleAll(b, Entering(stream))
    ensures Process(Start(b), stream).finished == FinishedIds(Entering(stream))
    ensures KeysMatch(Process(Start(b), stream).store, stream)
  {
    if stream != [] {
      var n := |stream| - 1;
      var before, d := stream[..n], stream[n];
      assert stream == before + [d];
      ProcessExactly(b, before);
      ClaimStep(Process(Start(b), before).store, before, d);
      ProcessPush(Start(b), before, d);
      Pushed(before, d);
      if EntersAfter(before, d) {
        HandleAllPush(b, Entering(before), d);
        Pushed(Entering(before), d);
      } else {
        assert Entering(stream) == Entering(before);
      }
    }
  }

  /** Delivery `k` of the stream enters its handler. */
  predicate EntersAt(stream: seq<Delivery>, k: nat) {
    k < |stream| && EntersAfter(stream[..k], stream[k])
  }

  /** Delivery `k` enters, is of event `id` and does not fail. */
  predicate FinishesAt(stream: seq<Delivery>, k: nat, id: string) {
    EntersAt(stream, k) && stream[k].id == id && !Fails(stream[k])
  }

  lemma FinishesBefore(before: seq<Delivery>, d: Delivery, k: nat, id: string)
    requires k < |before|
    ensures FinishesAt(before + [d], k, id) <==> FinishesAt(before, k, id)
  {
    assert (before + [d])[..k] == before[..k];
  }

  lemma {:induction false} FinishedExactly(stream: seq<Delivery>, id: string)
    ensures id in FinishedIds(Entering(stream)) <==> exists k: nat :: FinishesAt(stream, k, id)
  {
    if stream != [] {
      var n := |stream| - 1;
      var before, d := stream[..n], stream[n];
      assert stream == before + [d];
      FinishedExactly(before, id);
      Pushed(before, d);
      Pushed(Entering(before), d);
      forall k: nat | k < n ensures FinishesAt(stream, k, id) <==> FinishesAt(before, k, id) {
        FinishesBefore(before, d, k, id);
      }
      assert FinishesAt(stream, n, id) <==> EntersAfter(before, d) && d.id == id && !Fails(d);
      assert Entering(stream) == if EntersAfter(before, d) then Entering(before) + [d] else Entering(before);
      assert id in FinishedIds(Entering(stream))
        <==> id in FinishedIds(Entering(before)) || FinishesAt(stream, n, id);
      if k: nat :| FinishesAt(before, k, id) {
        assert FinishesAt(stream, k, id);
      } else if k: nat :| FinishesAt(stream, k, id) {
        assert k == n;
      }
    }
  }

  /** The promise that handling is safe under retries, exactly: an event is handled to the end if
      and only if some delivery of it that enters does not fail. */
  lemma TakesFullEffect(b: Books, stream: seq<Delivery>, id: string)
    requires Linked(b.db)
    ensures id in Process(Start(b), stream).finished
            <==> exists k: nat :: FinishesAt(stream, k, id)
  {
    ProcessExactly(b, stream);
    FinishedExactly(stream, id);
  }

  /** After a delivery entered, the last entry of its event is no earlier. */
  lemma {:induction false} EntryStays(stream: seq<Delivery>, k: nat, n: nat)
    requires EntersAt(stream, k) && k < n <= |stream|
    ensures LastEntry(stream[..n], stream[k].id).Some?
    ensures LastEntry(stream[..n], stream[k].id).value >= stream[k].env.now
  {
    assert stream[..n] == stream[..n - 1] + [stream[n - 1]];
    Pushed(stream[..n - 1], stream[n - 1]);
    if n > k + 1 { EntryStays(stream, k, n - 1); }
  }

  lemma RetryStaysOut(stream: seq<Delivery>, k: nat, n: nat)
    requires EntersAt(stream, k) && k < n < |stream|
    requires stream[n].id == stream[k].id && stream[n].env.now < stream[k].env.now + TTL
    ensures stream[..n + 1] == stream[..n] + [stream[n]] && Entering(stream[..n + 1]) == Entering(stream[..n])
  {
    EntryStays(stream, k, n);
    assert stream[..n + 1] == stream[..n] + [stream[n]];
    Pushed(stream[..n], stream[n]);
  }

  /** Once an event has entered, failed or not, no delivery of it within 48 hours changes anything,
      whatever else is delivered in between. */
  lemma RetryIsLost(b: Books, stream: seq<Delivery>, k: nat, n: nat)
    requires Linked(b.db) && EntersAt(stream, k) && k < n < |stream|
    requires stream[n].id == stream[k].id && stream[n].env.now < stream[k].env.now + TTL
    ensures Process(Start(b), stream[..n + 1]).books == Process(Start(b), stream[..n]).books
    ensures Process(Start(b), stream[..n + 1]).finished == Process(Start(b), stream[..n]).finished
  {
    RetryStaysOut(stream, k, n);
    ProcessExactly(b, stream[..n]);
    ProcessExactly(b, stream[..n + 1]);
  }

  /** So an event whose first delivery fails is never handled to its end by retries that all come
      within 48 hours of it. */
  lemma FailedEventRetry(b: Books, stream: seq<Delivery>, k: nat)
    requires Linked(b.db) && k < |stream| && Fails(stream[k])
    requires forall j | 0 <= j < k :: stream[j].id != stream[k].id
    requires forall j | k < j < |stream| && stream[j].id == stream[k].id :: stream[j].env.now < stream[k].env.now + TTL
    ensures stream[k].id !in Process(Start(b), stream).finished
  {
    var id := stream[k].id;
    NoEntry(stream[..k], id);
    assert EntersAt(stream, k);
    forall j: nat ensures !FinishesAt(stream, j, id) {
      if k < j < |stream| && stream[j].id == id { EntryStays(stream, k, j); }
    }
    TakesFullEffect(b, stream, id);
  }

  lemma {:induction false} NoEntry(stream: seq<Delivery>, id: string)
    requires forall j | 0 <= j < |stream| :: stream[j].id != id
    ensures LastEntry(stream, id) == None
  {
    if stream != [] { NoEntry(stream[..|stream| - 1], id); }
  }

  /** What the lost retry leaves: a success event whose handler fails after its first write, and
      is retried within 48 hours, leaves its payment succeeded and the invoice as it was, where one
      delivery without a failure makes it paid. */
  lemma RetryIsSwallowed(b: Books, first: Delivery, retry: Delivery, row: nat)
    requires InvoicesOk(b.db) && PaymentsOk(b.db) && Linked(b.db)
    requires first.event.IntentSucceededEvent? && first.env.stop in {Some(1), Some(2)}
    requires retry.id == first.id && retry.event == first.event
    requires retry.env.now < first.env.now + TTL
    requires Chosen(b.db.payments, first.event.intent, first.env.hint) == Some(row)
    ensures var after, id := Process(Start(b), [first, retry]).books.db, b.db.payments[row].invoice;
            && row < |after.payments| && after.payments[row].status == Succeeded && after.invoices == b.db.invoices
            && (b.db.invoices[id].money.total >= 0 ==>
                  HandleEvent(b, first.event, first.env.(stop := None)).db.invoices[id].status == Paid)
  {
    var steps := first.env.stop.value;
    StoppedHalfway(b, first.event.intent, row, first.env.now, steps);
    var stream := [first, retry];
    assert stream[..0] == [] && stream[..1] == [] + [first] && stream[..2] == stream;
    assert EntersAt(stream, 0);
    RetryIsLost(b, stream, 0, 1);
    ProcessPush(Start(b), [], first);
  }

  // ---------- redeliveries within the window ----------

  predicate Seen(stream: seq<Delivery>, id: string) {
    exists k :: 0 <= k < |stream| && stream[k].id == id
  }

  /** The first delivery of each event id, in order. */
  function Firsts(stream: seq<Delivery>): seq<Delivery> {
    if stream == [] then []
    else
      var before, d := stream[..|stream| - 1], stream[|stream| - 1];
      Firsts(before) + if Seen(before, d.id) then [] else [d]
  }

  /** Delivery `j` is the first one of the event of delivery `k`, less than 48 hours before it. */
  predicate InWindowOf(stream: seq<Delivery>, j: nat, k: nat) {
    && j < k < |stream| && stream[j].id == stream[k].id && !Seen(stream[..j], stream[j].id)
    && stream[k].env.now < stream[j].env.now + TTL
  }

  /** Every redelivery comes less than 48 hours after the first delivery of its event. */
  ghost predicate RedeliveredInWindow(stream: seq<Delivery>) {
    forall k: nat | k < |stream| && Seen(stream[..k], stream[k].id) :: exists j: nat :: InWindowOf(stream, j, k)
  }

  lemma WindowBefore(before: seq<Delivery>, d: Delivery)
    requires RedeliveredInWindow(before + [d])
    ensures RedeliveredInWindow(before)
  {
    var stream := before + [d];
    forall k: nat | k < |before| && Seen(before[..k], before[k].id) ensures exists j: nat :: InWindowOf(before, j, k) {
      assert stream[..k] == before[..k];
      var j: nat :| InWindowOf(stream, j, k);
      assert stream[..j] == before[..j];
      assert InWindowOf(before, j, k);
    }
  }

  lemma LastEnters(before: seq<Delivery>, d: Delivery)
    requires RedeliveredInWindow(before + [d])
    ensures EntersAfter(before, d) <==> !Seen(before, d.id)
  {
    var stream, n := before + [d], |before|;
    assert stream[..n] == before;
    if Seen(before, d.id) {
      var j: nat :| InWindowOf(stream, j, n);
      NoEntry(stream[..j], stream[j].id);
      EntryStays(stream, j, n);
    } else {
      NoEntry(before, d.id);
    }
  }

  lemma {:induction false} EnteringAreFirsts(stream: seq<Delivery>)
    requires RedeliveredInWindow(stream)
    ensures Entering(stream) == Firsts(stream)
  {
    if stream != [] {
      var n := |stream| - 1;
      var before, d := stream[..n], stream[n];
      assert stream == before + [d];
      WindowBefore(before, d);
      EnteringAreFirsts(before);
      LastEnters(before, d);
    }
  }

  /** A stream whose redeliveries all come within the window leaves the books of handling its first
      occurrences only, as far as each of them got. */
  lemma RedeliveriesChangeNothing(b: Books, stream: seq<Delivery>)
    requires Linked(b.db) && RedeliveredInWindow(stream)
    ensures Process(Start(b), stream).books == HandleAll(b, Firsts(stream))
  {
    ProcessExactly(b, stream);
    EnteringAreFirsts(stream);
  }

  // ---------- overlapping deliveries ----------

  /** Nothing but the webhook's SET NX touches dedup keys. */
  ghost predicate OnlyClaims(ops: seq<Timed>) {
    forall k, id: string | 0 <= k < |ops| && ops[k].op.key == DedupKey(id) ::
      ops[k].op == SetNx(DedupKey(id), "seen", TTL)
  }

  /** Delivery `i` of the event enters its handler. */
  predicate Enters(ops: seq<Timed>, i: nat, id: string)
    requires i < |ops|
  {
    Claims(ops, i, DedupKey(id), TTL)
  }

  /** Under any overlap, two deliveries of one event enter a handler at least 48 hours apart. */
  lemma EntersOncePerWindow(ops: seq<Timed>, i: nat, j: nat, id: string)
    requires Monotone(ops) && OnlyClaims(ops) && i < j < |ops|
    requires Enters(ops, i, id) && Enters(ops, j, id)
    ensures ops[j].time >= ops[i].time + 172_800
  {
    assert NotShortened(ops, i, j, DedupKey(id), TTL);
    ClaimLasts(ops, i, j, DedupKey(id), TTL);
  }
}
