/** The fixed-window rate limiter. */
module RateLimit {
  import opened Wrappers
  import opened CacheStore
  import opened Digits

  /** Requests are counted per organisation header when it is present, else per address. */
  datatype Client = Org(name: string) | Address(ip: string)

  /** `keyTime` is when the bucket key was computed, `time` when Redis ran the INCR; seconds. */
  datatype Request = Request(client: Client, keyTime: nat, time: nat)

  const WINDOW: nat := 60

  function BucketKey(c: Client, minute: nat): string {
    match c
    case Org(name) => "rate:org:" + name + ":" + Print(minute)
    case Address(ip) => "rate:ip:" + ip + ":" + Print(minute)
  }

  lemma AfterColon(a: string, d: string)
    requires AllDigits(d)
    ensures (a + ":" + d)[|a|] == ':'
    ensures forall k | |a| < k < |a + ":" + d| :: (a + ":" + d)[k] != ':'
  {
    forall k | |a| < k < |a + ":" + d| ensures (a + ":" + d)[k] != ':' {
      assert (a + ":" + d)[k] == d[k - |a| - 1];
    }
  }

  lemma LastColon(a: string, b: string, d: string, e: string)
    requires a + ":" + d == b + ":" + e && AllDigits(d) && AllDigits(e)
    ensures a == b && d == e
  {
    var s := a + ":" + d;
    AfterColon(a, d);
    AfterColon(b, e);
    assert |a| == |b|;
    assert s[..|a|] == a && s[..|b|] == b;
    assert s[|a| + 1..] == d && s[|b| + 1..] == e;
  }

  /** Distinct clients and minutes never share a counter, whatever characters a name holds. */
  lemma BucketKeyInjective(c: Client, m: nat, c': Client, m': nat)
    requires BucketKey(c, m) == BucketKey(c', m')
    ensures c == c' && m == m'
  {
    PrintedReadsBack(m);
    PrintedReadsBack(m');
    var key := BucketKey(c, m);
    assert c.Org? ==> key[5] == 'o';
    assert c'.Org? ==> key[5] == 'o';
    assert c.Address? ==> key[5] == 'i';
    assert c'.Address? ==> key[5] == 'i';
    if c.Org? {
      LastColon("rate:org:" + c.name, "rate:org:" + c'.name, Print(m), Print(m'));
      assert ("rate:org:" + c.name)[9..] == c.name && ("rate:org:" + c'.name)[9..] == c'.name;
    } else {
      LastColon("rate:ip:" + c.ip, "rate:ip:" + c'.ip, Print(m), Print(m'));
      assert ("rate:ip:" + c.ip)[8..] == c.ip && ("rate:ip:" + c'.ip)[8..] == c'.ip;
    }
  }

  function KeyOf(r: Request): string {
    BucketKey(r.client, r.keyTime / WINDOW)
  }

  /** Count of one limiter decision; a Redis error lets the request through. */
  function Decision(store: Store, r: Request, limit: nat): (Store, bool) {
    if limit == 0 then (store, true)
    else
      var (next, result) := Increment(store, KeyOf(r), WINDOW, r.time);
      (next, match result case Ok(count) => count <= limit case Err(_) => true)
  }

  predicate Exempt(path: string) {
    path == "/health" || path == "/ready" || path == "/metrics"
  }

  /** `rate_limit`; true lets the request through.  A missing cache fails open. */
  method Limit(path: string, cache: Cache?, r: Request, limit: nat) returns (pass: bool)
    modifies cache
    ensures path in {"/health", "/ready", "/metrics"} || cache == null ==> pass
    ensures cache != null ==>
              (cache.store, pass)
              == if path in {"/health", "/ready", "/metrics"} then (old(cache.store), true)
                 else Decision(old(cache.store), r, limit)
  {
    if Exempt(path) || limit == 0 || cache == null {
      return true;
    }
    var result := cache.IncrWithTtl(KeyOf(r), WINDOW, r.time);
    match result {
      case Ok(count) => return !(count > limit);
      case Err(_) => return true;
    }
  }

  // ---------- runs ----------

  function StoreAfter(requests: seq<Request>, limit: nat): Store {
    if requests == [] then map[]
    else Decision(StoreAfter(requests[..|requests| - 1], limit), requests[|requests| - 1], limit).0
  }

  predicate Admitted(requests: seq<Request>, limit: nat, i: nat)
    requires i < |requests|
  {
    Decision(StoreAfter(requests[..i], limit), requests[i], limit).1
  }

  /** The INCR runs within the minute its key names. */
  predicate OnTime(r: Request) {
    r.keyTime <= r.time && r.time / WINDOW == r.keyTime / WINDOW
  }

  /** Every INCR of the client is on time; other clients' may come at any moment. */
  ghost predicate Timely(requests: seq<Request>, c: Client) {
    forall i | 0 <= i < |requests| && requests[i].client == c :: OnTime(requests[i])
  }

  predicate InBucket(r: Request, c: Client, minute: nat) {
    r.client == c && r.keyTime / WINDOW == minute
  }

  function Made(requests: seq<Request>, c: Client, minute: nat): nat {
    if requests == [] then 0
    else Made(requests[..|requests| - 1], c, minute)
         + (if InBucket(requests[|requests| - 1], c, minute) then 1 else 0)
  }

  function Passed(requests: seq<Request>, limit: nat, c: Client, minute: nat): nat {
    if requests == [] then 0
    else
      var n := |requests| - 1;
      Passed(requests[..n], limit, c, minute)
      + (if InBucket(requests[n], c, minute) && Admitted(requests, limit, n) then 1 else 0)
  }

  function Min(a: nat, b: nat): nat { if a <= b then a else b }

  /** A bucket's counter equals the requests made in it and cannot expire within its minute. */
  ghost predicate CounterIs(store: Store, c: Client, minute: nat, made: nat) {
    var key := BucketKey(c, minute);
    if made == 0 then key !in store
    else key in store && store[key].value == Counter(made)
         && store[key].expiry.Some? && store[key].expiry.value >= (minute + 1) * WINDOW
  }

  lemma CounterStep(store: Store, r: Request, limit: nat, c: Client, minute: nat, made: nat)
    requires CounterIs(store, c, minute, made) && limit > 0 && (InBucket(r, c, minute) ==> OnTime(r))
    ensures var (next, pass) := Decision(store, r, limit);
            if InBucket(r, c, minute) then CounterIs(next, c, minute, made + 1) && (pass <==> made < limit)
            else CounterIs(next, c, minute, made)
  {
    if InBucket(r, c, minute) {
      assert minute * WINDOW <= r.time < (minute + 1) * WINDOW;
    } else if KeyOf(r) == BucketKey(c, minute) {
      BucketKeyInjective(r.client, r.keyTime / WINDOW, c, minute);
    }
  }

  /** Whatever happens in the other buckets, and in any order. */
  lemma {:induction false} CounterExact(requests: seq<Request>, limit: nat, c: Client, minute: nat)
    requires limit > 0 && forall i | 0 <= i < |requests| && InBucket(requests[i], c, minute) :: OnTime(requests[i])
    ensures CounterIs(StoreAfter(requests, limit), c, minute, Made(requests, c, minute))
    ensures Passed(requests, limit, c, minute) == Min(Made(requests, c, minute), limit)
  {
    if requests != [] {
      var before, r := requests[..|requests| - 1], requests[|requests| - 1];
      CounterExact(before, limit, c, minute);
      CounterStep(StoreAfter(before, limit), r, limit, c, minute, Made(before, c, minute));
    }
  }

  /** Requests of the client let through with an INCR time in [from, until). */
  function PassedWithin(requests: seq<Request>, limit: nat, c: Client, from: int, until: int): nat {
    if requests == [] then 0
    else
      var n := |requests| - 1;
      PassedWithin(requests[..n], limit, c, from, until)
      + (if requests[n].client == c && from <= requests[n].time < until && Admitted(requests, limit, n) then 1 else 0)
  }

  lemma {:induction false} OneMinute(requests: seq<Request>, limit: nat, c: Client, minute: nat, from: int, until: int)
    requires Timely(requests, c) && limit > 0
    requires minute * WINDOW <= from && until <= (minute + 1) * WINDOW
    ensures PassedWithin(requests, limit, c, from, until) <= Passed(requests, limit, c, minute)
  {
    if requests != [] {
      var n := |requests| - 1;
      OneMinute(requests[..n], limit, c, minute, from, until);
      if requests[n].client == c && from <= requests[n].time < until {
        assert OnTime(requests[n]);
        assert requests[n].time / WINDOW == minute;
      }
    }
  }

  lemma {:induction false} Split(requests: seq<Request>, limit: nat, c: Client, from: int, mid: int, until: int)
    requires from <= mid <= until
    ensures PassedWithin(requests, limit, c, from, until)
            == PassedWithin(requests, limit, c, from, mid) + PassedWithin(requests, limit, c, mid, until)
  {
    if requests != [] { Split(requests[..|requests| - 1], limit, c, from, mid, until); }
  }

  /** A window from within `minute` that ends inside `buckets` minutes lets at most that many
      limits through. */
  lemma {:induction false} MinutesBounded(requests: seq<Request>, limit: nat, c: Client,
                                          minute: nat, buckets: nat, from: nat, until: nat)
    requires Timely(requests, c) && limit > 0 && buckets > 0
    requires minute * WINDOW <= from <= (minute + 1) * WINDOW && until <= (minute + buckets) * WINDOW
    ensures PassedWithin(requests, limit, c, from, until) <= Times(buckets, limit)
    decreases buckets
  {
    var next := (minute + 1) * WINDOW;
    CounterExact(requests, limit, c, minute);
    if until <= next {
      OneMinute(requests, limit, c, minute, from, until);
    } else {
      Split(requests, limit, c, from, next, until);
      OneMinute(requests, limit, c, minute, from, next);
      MinutesBounded(requests, limit, c, minute + 1, buckets - 1, next, until);
    }
  }

  /** `n * limit`, by repeated addition. */
  function Times(n: nat, limit: nat): (r: nat)
    ensures r == n * limit
    ensures n > 0 ==> r >= limit
  {
    if n == 0 then 0 else limit + Times(n - 1, limit)
  }

  /** Any half-open window of k minutes lets at most (k + 1) limits through per client. */
  lemma WindowBounded(requests: seq<Request>, limit: nat, c: Client, from: nat, k: nat)
    requires Timely(requests, c) && limit > 0
    ensures PassedWithin(requests, limit, c, from, from + k * 60) <= (k + 1) * limit
  {
    assert Times(k + 1, limit) == (k + 1) * limit;
    MinutesBounded(requests, limit, c, from / WINDOW, k + 1, from, from + k * WINDOW);
  }

  // ---------- the bound is met ----------

  function Burst(c: Client, time: nat, n: nat): seq<Request> {
    seq(n, _ => Request(c, time, time))
  }

  lemma {:induction false} AllInOneOfTwo(requests: seq<Request>, limit: nat, c: Client)
    requires forall i | 0 <= i < |requests| :: requests[i] in {Request(c, 59, 59), Request(c, 60, 60)}
    ensures PassedWithin(requests, limit, c, 59, 119) == Passed(requests, limit, c, 0) + Passed(requests, limit, c, 1)
  {
    if requests != [] { AllInOneOfTwo(requests[..|requests| - 1], limit, c); }
  }

  lemma {:induction false} MadeInBurst(a: seq<Request>, c: Client, time: nat, n: nat, minute: nat)
    ensures Made(a + Burst(c, time, n), c, minute) == Made(a, c, minute) + if time / WINDOW == minute then n else 0
    decreases n
  {
    if n == 0 {
      assert a + Burst(c, time, n) == a;
    } else {
      var all := a + Burst(c, time, n);
      assert all[..|all| - 1] == a + Burst(c, time, n - 1);
      MadeInBurst(a, c, time, n - 1, minute);
    }
  }

  lemma BurstsMade(limit: nat, c: Client)
    ensures var requests := Burst(c, 59, limit) + Burst(c, 60, limit);
            Timely(requests, c) && Made(requests, c, 0) == limit && Made(requests, c, 1) == limit
  {
    assert [] + Burst(c, 59, limit) == Burst(c, 59, limit);
    forall minute | minute in {0, 1}
      ensures Made(Burst(c, 59, limit) + Burst(c, 60, limit), c, minute) == limit
    {
      MadeInBurst([], c, 59, limit, minute);
      MadeInBurst(Burst(c, 59, limit), c, 60, limit, minute);
    }
  }

  /** Two full bursts at a minute boundary do pass: the bound for one minute is reached. */
  lemma BurstReachesBound(limit: nat, c: Client) returns (requests: seq<Request>)
    requires limit > 0
    ensures Timely(requests, c) && PassedWithin(requests, limit, c, 59, 59 + 1 * WINDOW) == (1 + 1) * limit
  {
    requests := Burst(c, 59, limit) + Burst(c, 60, limit);
    BurstsMade(limit, c);
    CounterExact(requests, limit, c, 0);
    CounterExact(requests, limit, c, 1);
    AllInOneOfTwo(requests, limit, c);
  }

  // ---------- one late INCR ----------

  predicate InTimeOrder(requests: seq<Request>) {
    && (forall i | 0 <= i < |requests| :: requests[i].keyTime <= requests[i].time)
    && (forall i, j | 0 <= i <= j < |requests| :: requests[i].time <= requests[j].time)
  }

  /** More than k + 1 limits of the client pass in the window of k minutes. */
  predicate Exceeds(requests: seq<Request>, limit: nat, c: Client, from: nat, k: nat) {
    PassedWithin(requests, limit, c, from, from + k * WINDOW) > (k + 1) * limit
  }

  ghost predicate BreaksBound(requests: seq<Request>, limit: nat) {
    exists c, from, k :: Exceeds(requests, limit, c, from, k)
  }

  /** A run in time order that holds `r`, all other INCRs on time. */
  ghost predicate OthersOnTime(requests: seq<Request>, r: Request) {
    InTimeOrder(requests) && r in requests && forall q | q in requests && q != r :: OnTime(q)
  }

  lemma PushRequest(a: seq<Request>, r: Request, limit: nat, c: Client, from: int, until: int)
    ensures StoreAfter(a + [r], limit) == Decision(StoreAfter(a, limit), r, limit).0
    ensures PassedWithin(a + [r], limit, c, from, until)
            == PassedWithin(a, limit, c, from, until)
               + if r.client == c && from <= r.time < until && Decision(StoreAfter(a, limit), r, limit).1 then 1 else 0
  {
    assert (a + [r])[..|a|] == a;
  }

  function KeyAt(c: Client, time: nat): string { KeyOf(Request(c, time, time)) }

  /** The bucket of `key` holds `count` requests, the first of them at `time`. */
  predicate BurstStore(before: Store, after: Store, key: string, count: nat, time: nat) {
    if count == 0 then after == before && !Live(before, key, time)
    else after == before[key := Entry(Counter(count), Some(time + WINDOW))]
  }

  /** The next request of a burst that has let `count` through. */
  lemma NextOfBurst(before: Store, store: Store, r: Request, limit: nat, count: nat)
    requires count < limit && BurstStore(before, store, KeyOf(r), count, r.time)
    ensures BurstStore(before, Decision(store, r, limit).0, KeyOf(r), count + 1, r.time)
    ensures Decision(store, r, limit).1
  {
  }

  lemma BurstPush(a: seq<Request>, c: Client, time: nat, n: nat)
    requires n > 0
    ensures a + Burst(c, time, n) == a + Burst(c, time, n - 1) + [Request(c, time, time)]
  {
  }

  lemma {:induction false} BurstStores(a: seq<Request>, limit: nat, c: Client, time: nat, n: nat)
    requires n <= limit && !Live(StoreAfter(a, limit), KeyAt(c, time), time)
    ensures BurstStore(StoreAfter(a, limit), StoreAfter(a + Burst(c, time, n), limit), KeyAt(c, time), n, time)
    decreases n
  {
    if n == 0 {
      assert a + Burst(c, time, n) == a;
    } else {
      BurstStores(a, limit, c, time, n - 1);
      var before, r := a + Burst(c, time, n - 1), Request(c, time, time);
      BurstPush(a, c, time, n);
      NextOfBurst(StoreAfter(a, limit), StoreAfter(before, limit), r, limit, n - 1);
      PushRequest(before, r, limit, c, 0, 0);
    }
  }

  /** A burst of up to a limit on a key that is absent or expired passes whole. */
  lemma {:induction false} BurstPasses(
    a: seq<Request>, limit: nat, c: Client, time: nat, n: nat, from: int, until: int)
    requires n <= limit && !Live(StoreAfter(a, limit), KeyAt(c, time), time)
    ensures PassedWithin(a + Burst(c, time, n), limit, c, from, until)
            == PassedWithin(a, limit, c, from, until) + if from <= time < until then n else 0
    decreases n
  {
    if n == 0 {
      assert a + Burst(c, time, n) == a;
    } else {
      BurstPasses(a, limit, c, time, n - 1, from, until);
      var before, r := a + Burst(c, time, n - 1), Request(c, time, time);
      BurstStores(a, limit, c, time, n - 1);
      BurstPush(a, c, time, n);
      NextOfBurst(StoreAfter(a, limit), StoreAfter(before, limit), r, limit, n - 1);
      PushRequest(before, r, limit, c, from, until);
    }
  }

  lemma DistinctMinutes(c: Client, m: nat, n: nat)
    requires m != n
    ensures BucketKey(c, m) != BucketKey(c, n)
  {
    if BucketKey(c, m) == BucketKey(c, n) { BucketKeyInjective(c, m, c, n); }
  }

  predicate Prompt(q: Request) { q.keyTime == q.time }

  lemma OrderAppend(a: seq<Request>, b: seq<Request>)
    requires InTimeOrder(a) && InTimeOrder(b)
    requires forall p, q | p in a && q in b :: p.time <= q.time
    ensures InTimeOrder(a + b)
  {
  }

  lemma BurstInOrder(c: Client, time: nat, n: nat)
    ensures InTimeOrder(Burst(c, time, n))
    ensures forall q | q in Burst(c, time, n) :: q == Request(c, time, time)
  {
  }

  /** Where a window of three minutes starts that holds the end of minute m - 2. */
  function WindowStart(m: nat): nat
    requires m >= 2
  {
    (m - 1) * WINDOW - 1
  }

  function Passing(requests: seq<Request>, limit: nat, c: Client, m: nat): nat
    requires m >= 2
  {
    PassedWithin(requests, limit, c, WindowStart(m), WindowStart(m) + 3 * WINDOW)
  }

  function Before(c: Client, limit: nat, m: nat): seq<Request>
    requires m >= 2
  {
    Burst(c, WindowStart(m), limit) + Burst(c, (m - 1) * WINDOW, limit)
  }

  lemma BeforeStores(store: Store, next: Store, c: Client, limit: nat, m: nat)
    requires limit > 0 && m >= 2
    requires BurstStore(map[], store, BucketKey(c, m - 2), limit, WindowStart(m))
    requires BurstStore(store, next, BucketKey(c, m - 1), limit, (m - 1) * WINDOW)
    ensures forall key :: !Live(next, key, m * WINDOW)
    ensures forall n | n >= m :: BucketKey(c, n) !in next
  {
    forall n | n >= m ensures BucketKey(c, n) !in next {
      DistinctMinutes(c, m - 2, n);
      DistinctMinutes(c, m - 1, n);
    }
  }

  lemma BeforeMinutes(m: nat)
    requires m >= 2
    ensures WindowStart(m) / WINDOW == m - 2 && (m - 1) * WINDOW / WINDOW == m - 1
  {
  }

  /** A full burst on a key not yet used, within the window. */
  lemma BurstAfter(a: seq<Request>, c: Client, limit: nat, m: nat, time: nat)
    requires limit > 0 && m >= 2 && WindowStart(m) <= time < WindowStart(m) + 3 * WINDOW
    requires KeyAt(c, time) !in StoreAfter(a, limit)
    ensures Passing(a + Burst(c, time, limit), limit, c, m) == Passing(a, limit, c, m) + limit
    ensures BurstStore(StoreAfter(a, limit), StoreAfter(a + Burst(c, time, limit), limit), KeyAt(c, time), limit, time)
  {
    BurstPasses(a, limit, c, time, limit, WindowStart(m), WindowStart(m) + 3 * WINDOW);
    BurstStores(a, limit, c, time, limit);
  }

  lemma FirstBurst(c: Client, limit: nat, m: nat)
    requires limit > 0 && m >= 2
    ensures Passing(Burst(c, WindowStart(m), limit), limit, c, m) == limit
    ensures BurstStore(map[], StoreAfter(Burst(c, WindowStart(m), limit), limit),
                       KeyAt(c, WindowStart(m)), limit, WindowStart(m))
  {
    assert [] + Burst(c, WindowStart(m), limit) == Burst(c, WindowStart(m), limit);
    BurstAfter([], c, limit, m, WindowStart(m));
  }

  /** Full bursts in the two minutes before `m`, both expired when minute `m` begins. */
  lemma TwoMinutesBefore(c: Client, limit: nat, m: nat)
    requires limit > 0 && m >= 2
    ensures forall key :: !Live(StoreAfter(Before(c, limit, m), limit), key, m * WINDOW)
    ensures forall n | n >= m :: BucketKey(c, n) !in StoreAfter(Before(c, limit, m), limit)
    ensures Passing(Before(c, limit, m), limit, c, m) == limit + limit
  {
    var first := Burst(c, WindowStart(m), limit);
    BeforeMinutes(m);
    FirstBurst(c, limit, m);
    DistinctMinutes(c, m - 2, m - 1);
    BurstAfter(first, c, limit, m, (m - 1) * WINDOW);
    BeforeStores(StoreAfter(first, limit), StoreAfter(Before(c, limit, m), limit), c, limit, m);
  }

  function WithLate(r: Request, limit: nat): seq<Request>
    requires r.time >= 2 * WINDOW
  {
    Before(r.client, limit, r.time / WINDOW) + [r]
  }

  /** `r` is the first of its bucket once more. */
  lemma LatePasses(r: Request, limit: nat)
    requires limit > 0 && r.time >= 2 * WINDOW && r.keyTime / WINDOW < r.time / WINDOW
    ensures Passing(WithLate(r, limit), limit, r.client, r.time / WINDOW) == 2 * limit + 1
    ensures forall n | n >= r.time / WINDOW :: BucketKey(r.client, n) !in StoreAfter(WithLate(r, limit), limit)
  {
    var c, m := r.client, r.time / WINDOW;
    var before := Before(c, limit, m);
    TwoMinutesBefore(c, limit, m);
    PushRequest(before, r, limit, c, WindowStart(m), WindowStart(m) + 3 * WINDOW);
    FreshKey(StoreAfter(before, limit), r, limit);
    forall n | n >= m ensures BucketKey(c, n) !in StoreAfter(WithLate(r, limit), limit) {
      DistinctMinutes(c, r.keyTime / WINDOW, n);
    }
  }

  lemma FreshKey(store: Store, r: Request, limit: nat)
    requires limit > 0 && forall key :: !Live(store, key, r.time / WINDOW * WINDOW)
    ensures Decision(store, r, limit) == (store[KeyOf(r) := Entry(Counter(1), Some(r.time + WINDOW))], true)
  {
    assert r.time / WINDOW * WINDOW <= r.time;
    assert !Live(store, KeyOf(r), r.time / WINDOW * WINDOW);
  }

  function Escaping(r: Request, limit: nat): seq<Request>
    requires r.time >= 2 * WINDOW
  {
    WithLate(r, limit) + Burst(r.client, r.time, limit) + Burst(r.client, (r.time / WINDOW + 1) * WINDOW, limit)
  }

  lemma NextMinute(m: nat)
    ensures (m + 1) * WINDOW / WINDOW == m + 1
  {
  }

  lemma StillUnused(before: Store, after: Store, c: Client, limit: nat, m: nat, time: nat)
    requires limit > 0 && BurstStore(before, after, BucketKey(c, m), limit, time) && BucketKey(c, m + 1) !in before
    ensures BucketKey(c, m + 1) !in after
  {
    DistinctMinutes(c, m, m + 1);
  }

  /** Full bursts in the minute of `r` and the next one, after `r`. */
  lemma TwoMinutesAfter(r: Request, limit: nat)
    requires limit > 0 && r.time >= 2 * WINDOW && r.keyTime / WINDOW < r.time / WINDOW
    ensures Passing(Escaping(r, limit), limit, r.client, r.time / WINDOW) == 4 * limit + 1
  {
    var c, m := r.client, r.time / WINDOW;
    var late := WithLate(r, limit);
    var third := late + Burst(c, r.time, limit);
    LatePasses(r, limit);
    BurstAfter(late, c, limit, m, r.time);
    NextMinute(m);
    StillUnused(StoreAfter(late, limit), StoreAfter(third, limit), c, limit, m, r.time);
    BurstAfter(third, c, limit, m, (m + 1) * WINDOW);
  }

  ghost predicate PromptBut(requests: seq<Request>, r: Request, last: nat) {
    InTimeOrder(requests) && forall q | q in requests :: (q == r || Prompt(q)) && q.time <= last
  }

  lemma OrderBurst(a: seq<Request>, r: Request, last: nat, c: Client, time: nat, n: nat)
    requires PromptBut(a, r, last) && last <= time
    ensures PromptBut(a + Burst(c, time, n), r, time)
  {
    BurstInOrder(c, time, n);
    OrderAppend(a, Burst(c, time, n));
  }

  lemma EscapingInOrder(r: Request, limit: nat)
    requires r.keyTime <= r.time && r.time >= 2 * WINDOW
    ensures InTimeOrder(Escaping(r, limit)) && r in Escaping(r, limit)
    ensures forall q | q in Escaping(r, limit) && q != r :: Prompt(q)
  {
    var c, m := r.client, r.time / WINDOW;
    var first := Burst(c, WindowStart(m), limit);
    assert [] + first == first;
    OrderBurst([], r, 0, c, WindowStart(m), limit);
    OrderBurst(first, r, WindowStart(m), c, (m - 1) * WINDOW, limit);
    OrderAppend(Before(c, limit, m), [r]);
    assert PromptBut(WithLate(r, limit), r, r.time);
    OrderBurst(WithLate(r, limit), r, r.time, c, r.time, limit);
    OrderBurst(WithLate(r, limit) + Burst(c, r.time, limit), r, r.time, c, (m + 1) * WINDOW, limit);
    assert WithLate(r, limit)[|Before(c, limit, m)|] == r;
  }

  /** One late request, with full bursts in its own minute and in the three around it, is one over
      the bound of three minutes. */
  lemma LateIncrEscapes(r: Request, limit: nat) returns (requests: seq<Request>)
    requires limit > 0 && r.keyTime <= r.time && r.time >= 2 * WINDOW && !OnTime(r)
    ensures OthersOnTime(requests, r) && forall q | q in requests && q != r :: Prompt(q)
    ensures BreaksBound(requests, limit)
  {
    requests := Escaping(r, limit);
    EscapingInOrder(r, limit);
    TwoMinutesAfter(r, limit);
    assert Exceeds(requests, limit, r.client, WindowStart(r.time / WINDOW), 3);
  }

  /** One request can make the bound fail, all others being on time, exactly when its INCR misses
      the minute its key names.  (Times are Unix times, two minutes after the epoch or later.) */
  lemma LateBreaksExactly(r: Request, limit: nat)
    requires limit > 0 && r.keyTime <= r.time && r.time >= 2 * WINDOW
    ensures (exists requests :: OthersOnTime(requests, r) && BreaksBound(requests, limit)) <==> !OnTime(r)
  {
    if !OnTime(r) {
      var requests := LateIncrEscapes(r, limit);
    } else {
      forall requests | OthersOnTime(requests, r) ensures !BreaksBound(requests, limit) {
        AllOnTime(requests, limit);
      }
    }
  }

  lemma AllOnTime(requests: seq<Request>, limit: nat)
    requires limit > 0 && forall q | q in requests :: OnTime(q)
    ensures !BreaksBound(requests, limit)
  {
    forall c, from, k ensures !Exceeds(requests, limit, c, from, k) {
      WindowBounded(requests, limit, c, from, k);
    }
  }

  /** Every INCR runs at most `lag` seconds after its key was computed. */
  predicate LagsAtMost(requests: seq<Request>, lag: nat) {
    forall i | 0 <= i < |requests| :: requests[i].time <= requests[i].keyTime + lag
  }

  ghost predicate BreaksWithLag(requests: seq<Request>, limit: nat, lag: nat) {
    InTimeOrder(requests) && LagsAtMost(requests, lag) && BreaksBound(requests, limit)
  }

  /** The bound holds of all runs exactly when there is no time at all between key and INCR: a
      single second, across the end of a minute, breaks it. */
  lemma AnyLagBreaks(limit: nat, lag: nat)
    requires limit > 0
    ensures (exists requests :: BreaksWithLag(requests, limit, lag)) <==> lag > 0
  {
    if lag > 0 {
      var r := Request(Address(""), 179, 180);
      var requests := LateIncrEscapes(r, limit);
      forall i | 0 <= i < |requests| ensures requests[i].time <= requests[i].keyTime + lag {
        assert requests[i] == r || Prompt(requests[i]);
      }
      assert BreaksWithLag(requests, limit, lag);
    } else {
      forall requests | InTimeOrder(requests) && LagsAtMost(requests, lag) ensures !BreaksBound(requests, limit) {
        AllOnTime(requests, limit);
      }
    }
  }
}
