/** Idempotency-Key on checkout: look the key up, claim it, and store the response at the end,
    as separate commands of any number of requests that carry the same key. */
module Idempotency {
  import opened Wrappers
  import opened CacheStore

  const TTL: nat := 24 * 60 * 60
  const IN_FLIGHT := "in-flight"

  function RedisKey(scope: string, key: string): string {
    "idem:" + scope + ":" + key
  }

  /** Distinct keys of one endpoint never share an entry. */
  lemma RedisKeyInjective(scope: string, a: string, b: string)
    requires RedisKey(scope, a) == RedisKey(scope, b)
    ensures a == b
  {
    var n := |"idem:" + scope + ":"|;
    assert RedisKey(scope, a)[n..] == a && RedisKey(scope, b)[n..] == b;
  }

  datatype Error = Conflict | Internal

  /** The answer to a lookup: a stored response, a conflict, or None to proceed. */
  function Answer(found: Option<Value>): Result<Option<string>, Error> {
    match found
    case None => Ok(None)
    case Some(Counter(_)) => Err(Internal)
    case Some(Text(text)) => if text == IN_FLIGHT then Err(Conflict) else Ok(Some(text))
  }

  /** `check`: GET at one moment, SET NX at a later one; the outcome of the SET NX is ignored. */
  method Check(cache: Cache, scope: string, key: string, getTime: int, setTime: int)
    returns (r: Result<Option<string>, Error>)
    modifies cache
    ensures r == Answer(Lookup(old(cache.store), RedisKey(scope, key), getTime))
    ensures cache.store == if Lookup(old(cache.store), RedisKey(scope, key), getTime).Some? then old(cache.store)
                           else PutNew(old(cache.store), RedisKey(scope, key), IN_FLIGHT, TTL, setTime).0
  {
    var k := RedisKey(scope, key);
    var existing := cache.Get(k, getTime);
    if existing.Some? {
      match existing.value {
        case Counter(_) => return Err(Internal);
        case Text(text) =>
          if text == IN_FLIGHT {
            return Err(Conflict);
          }
          return Ok(Some(text));
      }
    }
    var _ := cache.SetNxEx(k, IN_FLIGHT, TTL, setTime);
    return Ok(None);
  }

  /** `store_result`. */
  method StoreResult(cache: Cache, scope: string, key: string, response: string, now: int)
    modifies cache
    ensures cache.store == Put(old(cache.store), RedisKey(scope, key), response, TTL, now)
  {
    cache.SetEx(RedisKey(scope, key), response, TTL, now);
  }

  // ---------- requests with one key ----------

  /** `claimedAt` is when the request ran its SET NX, whether or not it set the key. */
  datatype Request = Arrived | Missed | Claimed(claimedAt: int) | Inserted(claimedAt: int) | Ended

  /** History: what happened, and when. */
  datatype What = Miss | Win | Row(claimedAt: int) | Stored(response: string) | Replay(response: string) | Refuse
  datatype Note = Note(time: int, what: What)

  datatype State = State(store: Store, requests: seq<Request>, log: seq<Note>, now: int)

  datatype Action =
    | Arrive
    | RunGet(r: nat)
    | RunSetNx(r: nat)
    | InsertRow(r: nat)
    | Complete(r: nat, response: string)
    | Fail(r: nat)

  datatype Label = Label(time: int, action: Action)

  predicate Enabled(s: State, l: Label) {
    l.time >= s.now &&
    match l.action
    case Arrive => true
    case RunGet(r) => r < |s.requests| && s.requests[r] == Arrived
    case RunSetNx(r) => r < |s.requests| && s.requests[r] == Missed
    case InsertRow(r) => r < |s.requests| && s.requests[r].Claimed?
      // a response is a JSON object, never the placeholder
    case Complete(r, response) => r < |s.requests| && s.requests[r].Inserted? && response != IN_FLIGHT
    case Fail(r) => r < |s.requests|
  }

  function Advance(s: State, time: int, store: Store, r: nat, next: Request, log: seq<Note>): State
    requires r < |s.requests|
  {
    State(store, s.requests[r := next], log, time)
  }

  function Step(s: State, l: Label, key: string): State
    requires Enabled(s, l)
  {
    var t := l.time;
    match l.action
    case Arrive => s.(requests := s.requests + [Arrived], now := t)
    case RunGet(r) =>
      (match Answer(Lookup(s.store, key, t))
       case Ok(None) => Advance(s, t, s.store, r, Missed, s.log + [Note(t, Miss)])
       case Ok(Some(response)) => Advance(s, t, s.store, r, Ended, s.log + [Note(t, Replay(response))])
       case Err(_) => Advance(s, t, s.store, r, Ended, s.log + [Note(t, Refuse)]))
    case RunSetNx(r) =>
      var (store, won) := PutNew(s.store, key, IN_FLIGHT, TTL, t);
      Advance(s, t, store, r, Claimed(t), if won then s.log + [Note(t, Win)] else s.log)
    case InsertRow(r) =>
      Advance(s, t, s.store, r, Inserted(s.requests[r].claimedAt), s.log + [Note(t, Row(s.requests[r].claimedAt))])
    case Complete(r, response) =>
      Advance(s, t, Put(s.store, key, response, TTL, t), r, Ended, s.log + [Note(t, Stored(response))])
    case Fail(r) => Advance(s, t, s.store, r, Ended, s.log)
  }

  ghost predicate IsRun(states: seq<State>, labels: seq<Label>, key: string) {
    && |states| == |labels| + 1
    && states[0].store == map[] && states[0].requests == [] && states[0].log == []
    && forall k | 0 <= k < |labels| :: Enabled(states[k], labels[k]) && states[k + 1] == Step(states[k], labels[k], key)
  }

  // ---------- every interleaving ----------

  /** The key is held until at least a time-to-live after `anchor`, or that time has come. */
  predicate Holds(s: State, key: string, anchor: int) {
    (key in s.store && s.store[key].expiry.Some? && s.store[key].expiry.value >= anchor + TTL)
    || s.now >= anchor + TTL
  }

  predicate LaterHolds(s: State, key: string, log: seq<Note>) {
    forall i | 0 <= i < |log| && (log[i].what == Win || log[i].what.Stored?) :: Holds(s, key, log[i].time)
  }

  /** No lookup misses within 24 hours of a successful claim or a stored response. */
  predicate MissesSpaced(log: seq<Note>) {
    forall i, j | 0 <= i < j < |log| && (log[i].what == Win || log[i].what.Stored?) && log[j].what == Miss ::
      log[j].time >= log[i].time + TTL
  }

  function LastStored(log: seq<Note>): Option<string> {
    if log == [] then None
    else if log[|log| - 1].what.Stored? then Some(log[|log| - 1].what.response)
    else LastStored(log[..|log| - 1])
  }

  /** What the store holds for the key: the placeholder or the last response stored. */
  predicate HoldsLast(s: State, key: string) {
    key in s.store ==> s.store[key].value == Text(IN_FLIGHT)
                       || (s.store[key].value.Text? && LastStored(s.log) == Some(s.store[key].value.text))
  }

  predicate ReplaysLast(log: seq<Note>) {
    forall i | 0 <= i < |log| && log[i].what.Replay? :: LastStored(log[..i]) == Some(log[i].what.response)
  }

  predicate InOrder(log: seq<Note>, now: int) {
    && (forall i, j | 0 <= i <= j < |log| :: log[i].time <= log[j].time)
    && (forall i | 0 <= i < |log| :: log[i].time <= now)
  }

  ghost predicate Inv(s: State, key: string) {
    InOrder(s.log, s.now) &&
    LaterHolds(s, key, s.log) && MissesSpaced(s.log) && HoldsLast(s, key) && ReplaysLast(s.log)
  }

  lemma StepHolds(s: State, l: Label, key: string)
    requires Inv(s, key) && Enabled(s, l)
    ensures LaterHolds(Step(s, l, key), key, Step(s, l, key).log)
  {
    var t := Step(s, l, key);
    forall i | 0 <= i < |s.log| && (s.log[i].what == Win || s.log[i].what.Stored?)
      ensures Holds(t, key, s.log[i].time)
    {
      assert Holds(s, key, s.log[i].time);
    }
  }

  lemma StepSpacing(s: State, l: Label, key: string)
    requires Inv(s, key) && Enabled(s, l)
    ensures MissesSpaced(Step(s, l, key).log)
  {
    if l.action.RunGet? {
      forall i | 0 <= i < |s.log| && (s.log[i].what == Win || s.log[i].what.Stored?)
        ensures Live(s.store, key, l.time) || l.time >= s.log[i].time + TTL
      {
        assert Holds(s, key, s.log[i].time);
      }
    }
  }

  lemma StepInOrder(s: State, l: Label, key: string)
    requires InOrder(s.log, s.now) && Enabled(s, l)
    ensures InOrder(Step(s, l, key).log, Step(s, l, key).now)
  {
  }

  lemma LastStoredPush(log: seq<Note>, e: Note)
    ensures LastStored(log + [e]) == if e.what.Stored? then Some(e.what.response) else LastStored(log)
  {
    assert (log + [e])[..|log|] == log;
  }

  lemma StepHoldsLast(s: State, l: Label, key: string)
    requires HoldsLast(s, key) && Enabled(s, l)
    ensures HoldsLast(Step(s, l, key), key)
  {
    var t := Step(s, l, key);
    if t.log != s.log { LastStoredPush(s.log, t.log[|s.log|]); }
  }

  lemma StepReplays(s: State, l: Label, key: string)
    requires HoldsLast(s, key) && ReplaysLast(s.log) && Enabled(s, l)
    ensures ReplaysLast(Step(s, l, key).log)
  {
    var t := Step(s, l, key);
    forall i | 0 <= i < |t.log| && t.log[i].what.Replay?
      ensures LastStored(t.log[..i]) == Some(t.log[i].what.response)
    {
      assert t.log[..i] == s.log[..i];
      assert s.log[..|s.log|] == s.log;
    }
  }

  lemma {:induction false} RunInv(states: seq<State>, labels: seq<Label>, key: string, k: nat)
    requires IsRun(states, labels, key) && k < |states|
    ensures Inv(states[k], key)
  {
    if k > 0 {
      RunInv(states, labels, key, k - 1);
      StepHolds(states[k - 1], labels[k - 1], key);
      StepSpacing(states[k - 1], labels[k - 1], key);
      StepInOrder(states[k - 1], labels[k - 1], key);
      StepHoldsLast(states[k - 1], labels[k - 1], key);
      StepReplays(states[k - 1], labels[k - 1], key);
    }
  }

  /** Every replayed response is the one stored by the last request that completed. */
  lemma ReplayIsLastStored(states: seq<State>, labels: seq<Label>, key: string, k: nat, i: nat)
    requires IsRun(states, labels, key) && k < |states|
    requires i < |states[k].log| && states[k].log[i].what.Replay?
    ensures LastStored(states[k].log[..i]) == Some(states[k].log[i].what.response)
  {
    RunInv(states, labels, key, k);
  }

  // ---------- the answer, from the history alone ----------

  /** The last successful claim or stored response. */
  function LastEntry(log: seq<Note>): Option<Note> {
    if log == [] then None
    else
      var e := log[|log| - 1];
      if e.what == Win || e.what.Stored? then Some(e) else LastEntry(log[..|log| - 1])
  }

  /** A claim or a response counts for 24 hours: the claim refuses, the response is replayed. */
  function Expected(log: seq<Note>, time: int): What {
    match LastEntry(log)
    case None => Miss
    case Some(e) =>
      if time >= e.time + 86_400 then Miss
      else if e.what.Stored? then Replay(e.what.response)
      else Refuse
  }

  /** The store holds for the key what the last entry put there. */
  predicate KeyIs(store: Store, key: string, entry: Option<Note>) {
    match entry
    case None => key !in store
    case Some(e) =>
      && key in store && store[key].expiry == Some(e.time + 86_400)
      && (if e.what.Stored? then store[key].value == Text(e.what.response) && e.what.response != IN_FLIGHT
          else store[key].value == Text(IN_FLIGHT))
  }

  lemma LastEntryPush(log: seq<Note>, e: Note)
    ensures LastEntry(log + [e]) == if e.what == Win || e.what.Stored? then Some(e) else LastEntry(log)
  {
    assert (log + [e])[..|log|] == log;
  }

  lemma StepKeyIs(s: State, l: Label, key: string)
    requires Enabled(s, l) && KeyIs(s.store, key, LastEntry(s.log))
    ensures KeyIs(Step(s, l, key).store, key, LastEntry(Step(s, l, key).log))
  {
    var t := Step(s, l, key);
    if t.log != s.log { LastEntryPush(s.log, t.log[|s.log|]); }
  }

  lemma {:induction false} RunKeyIs(states: seq<State>, labels: seq<Label>, key: string, k: nat)
    requires IsRun(states, labels, key) && k < |states|
    ensures KeyIs(states[k].store, key, LastEntry(states[k].log))
  {
    if k > 0 {
      RunKeyIs(states, labels, key, k - 1);
      StepKeyIs(states[k - 1], labels[k - 1], key);
    }
  }

  /** Every lookup of every interleaving: within 24 hours of a stored response it replays that
      response, within 24 hours of a successful claim it refuses, and otherwise it misses. */
  lemma LookupExactly(states: seq<State>, labels: seq<Label>, key: string, k: nat)
    requires IsRun(states, labels, key) && k < |labels| && labels[k].action.RunGet?
    ensures states[k + 1].log == states[k].log + [Note(labels[k].time, Expected(states[k].log, labels[k].time))]
  {
    RunKeyIs(states, labels, key, k);
  }

  /** Every SET NX of every interleaving: it claims the key exactly when nothing has been claimed or
      stored in the last 24 hours; the request goes on either way. */
  lemma ClaimExactly(states: seq<State>, labels: seq<Label>, key: string, k: nat)
    requires IsRun(states, labels, key) && k < |labels| && labels[k].action.RunSetNx?
    ensures var s, t, time := states[k], states[k + 1], labels[k].time;
            && t.log == (if Expected(s.log, time) == Miss then s.log + [Note(time, Win)] else s.log)
            && t.requests == s.requests[labels[k].action.r := Claimed(time)]
  {
    RunKeyIs(states, labels, key, k);
  }

  // ---------- rows under overlap ----------

  function Count(log: seq<Note>, rows: bool): nat {
    if log == [] then 0
    else Count(log[..|log| - 1], rows)
         + (if (if rows then log[|log| - 1].what.Row? else log[|log| - 1].what == Miss) then 1 else 0)
  }

  /** Requests that missed and have not inserted their row. */
  function Underway(requests: seq<Request>): nat {
    if requests == [] then 0
    else Underway(requests[..|requests| - 1])
         + (if requests[|requests| - 1] == Missed || requests[|requests| - 1].Claimed? then 1 else 0)
  }

  lemma {:induction false} UnderwayUpdate(requests: seq<Request>, r: nat, next: Request)
    requires r < |requests|
    ensures Underway(requests[r := next]) == Underway(requests)
            - (if requests[r] == Missed || requests[r].Claimed? then 1 else 0)
            + (if next == Missed || next.Claimed? then 1 else 0)
  {
    var n := |requests| - 1;
    if r == n {
      assert requests[r := next][..n] == requests[..n];
    } else {
      assert requests[r := next][..n] == requests[..n][r := next];
      UnderwayUpdate(requests[..n], r, next);
    }
  }

  lemma CountPush(log: seq<Note>, e: Note, rows: bool)
    ensures Count(log + [e], rows) == Count(log, rows) + if (if rows then e.what.Row? else e.what == Miss) then 1 else 0
  {
    assert (log + [e])[..|log|] == log;
  }

  function Surplus(s: State): int {
    Count(s.log, false) - Count(s.log, true) - Underway(s.requests)
  }

  lemma StepSurplus(s: State, l: Label, key: string)
    requires Enabled(s, l)
    ensures Surplus(Step(s, l, key)) >= Surplus(s)
  {
    var t := Step(s, l, key);
    LogSurplus(s.log, t.log);
    if l.action.Arrive? {
      assert t.requests[..|s.requests|] == s.requests;
    } else {
      UnderwayUpdate(s.requests, l.action.r, t.requests[l.action.r]);
    }
  }

  lemma LogSurplus(log: seq<Note>, log': seq<Note>)
    requires log' == log || (|log'| == |log| + 1 && log' == log + [log'[|log|]])
    ensures Count(log', false) - Count(log', true) == Count(log, false) - Count(log, true)
            + if log' == log then 0 else if log'[|log|].what == Miss then 1 else if log'[|log|].what.Row? then -1 else 0
  {
    if log' != log {
      CountPush(log, log'[|log|], true);
      CountPush(log, log'[|log|], false);
    }
  }

  lemma {:induction false} RowsBounded(states: seq<State>, labels: seq<Label>, key: string, k: nat)
    requires IsRun(states, labels, key) && k < |states|
    ensures Surplus(states[k]) >= 0
  {
    if k > 0 {
      RowsBounded(states, labels, key, k - 1);
      StepSurplus(states[k - 1], labels[k - 1], key);
    }
  }

  lemma {:induction false} CountSplit(log: seq<Note>, i: nat)
    requires i <= |log| && forall j | i <= j < |log| :: log[j].what != Miss
    ensures Count(log, false) == Count(log[..i], false)
  {
    if i < |log| {
      assert log[..|log| - 1][..i] == log[..i];
      CountSplit(log[..|log| - 1], i);
    } else {
      assert log[..i] == log;
    }
  }

  /** Under any overlap: until 24 hours after a successful claim, no more rows exist than requests
      whose lookup preceded that claim. */
  lemma RowsUnderOverlap(states: seq<State>, labels: seq<Label>, key: string, k: nat, i: nat)
    requires IsRun(states, labels, key) && k < |states|
    requires i < |states[k].log| && states[k].log[i].what == Win
    requires forall j | i <= j < |states[k].log| :: states[k].log[j].time < states[k].log[i].time + TTL
    ensures Count(states[k].log, true) <= Count(states[k].log[..i], false)
  {
    RunInv(states, labels, key, k);
    RowsBounded(states, labels, key, k);
    CountSplit(states[k].log, i);
  }

  // ---------- serial runs ----------

  /** A request looks up only when no other is between its lookup and its end. */
  ghost predicate Serial(states: seq<State>, labels: seq<Label>)
    requires |states| == |labels| + 1
  {
    forall k, r | 0 <= k < |labels| && labels[k].action.RunGet? && 0 <= r < |states[k].requests| ::
      states[k].requests[r] in {Arrived, Ended}
  }

  predicate Idle(q: Request) { q in {Arrived, Ended} }

  /** The moment a row or a stored response holds the key from. */
  function Anchor(e: Note): Option<int> {
    match e.what
    case Row(claimedAt) => Some(claimedAt)
    case Stored(_) => Some(e.time)
    case _ => None
  }

  predicate Held(s: State, key: string, anchor: int) {
    anchor <= s.now && Holds(s, key, anchor)
  }

  ghost predicate OneAtATime(s: State) {
    forall q, r | 0 <= q < r < |s.requests| :: Idle(s.requests[q]) || Idle(s.requests[r])
  }

  predicate ToInsert(q: Request) { q == Missed || q.Claimed? }

  /** A request that missed will win its SET NX; one that claimed holds the key. */
  predicate RequestOk(s: State, key: string, q: Request) {
    match q
    case Missed => key in s.store ==> s.store[key].expiry.Some? && s.store[key].expiry.value <= s.now
    case Claimed(c) => Held(s, key, c)
    case Inserted(c) => Held(s, key, c)
    case _ => true
  }

  ghost predicate RequestsOk(s: State, key: string) {
    forall r | 0 <= r < |s.requests| :: RequestOk(s, key, s.requests[r])
  }

  predicate AnchorsHeld(s: State, key: string) {
    forall i | 0 <= i < |s.log| && Anchor(s.log[i]).Some? :: Held(s, key, Anchor(s.log[i]).value)
  }

  predicate AnchorsPast(s: State) {
    forall i | 0 <= i < |s.log| && Anchor(s.log[i]).Some? :: s.now >= Anchor(s.log[i]).value + TTL
  }

  /** A request that is to insert a row comes after every anchor has expired. */
  ghost predicate UnderwayAfterAnchors(s: State) {
    forall r | 0 <= r < |s.requests| && ToInsert(s.requests[r]) :: AnchorsPast(s)
  }

  ghost predicate SerialInv(s: State, key: string) {
    OneAtATime(s) && RequestsOk(s, key) && AnchorsHeld(s, key) && UnderwayAfterAnchors(s) && RowsSpaced(s.log)
  }

  /** Every row comes 24 hours or more after the claim of each earlier row, and after each earlier
      stored response. */
  predicate RowsSpaced(log: seq<Note>) {
    forall i, j | 0 <= i < j < |log| && Anchor(log[i]).Some? && log[j].what.Row? ::
      log[j].time >= Anchor(log[i]).value + TTL
  }

  ghost predicate SerialStep(s: State, l: Label, key: string) {
    && SerialInv(s, key) && Enabled(s, l)
    && (l.action.RunGet? ==> forall r | 0 <= r < |s.requests| :: Idle(s.requests[r]))
    && (key in s.store ==> s.store[key].expiry.Some?)
  }

  lemma HeldStays(s: State, l: Label, key: string, anchor: int)
    requires Enabled(s, l) && Held(s, key, anchor)
    ensures Held(Step(s, l, key), key, anchor)
  {
  }

  lemma StepOneAtATime(s: State, l: Label, key: string)
    requires SerialStep(s, l, key)
    ensures OneAtATime(Step(s, l, key))
  {
  }

  lemma StepRequestsOk(s: State, l: Label, key: string)
    requires SerialStep(s, l, key)
    ensures RequestsOk(Step(s, l, key), key)
  {
    var t := Step(s, l, key);
    forall r | 0 <= r < |t.requests| ensures RequestOk(t, key, t.requests[r]) {
      if r < |s.requests| {
        assert RequestOk(s, key, s.requests[r]);
        if s.requests[r].Claimed? || s.requests[r].Inserted? { HeldStays(s, l, key, s.requests[r].claimedAt); }
        if s.requests[r] == Missed && t.store != s.store {
          var q := l.action.r;
          assert q == r || Idle(s.requests[q]);
        }
      }
    }
  }

  lemma StepAnchorsHeld(s: State, l: Label, key: string)
    requires SerialStep(s, l, key)
    ensures AnchorsHeld(Step(s, l, key), key)
  {
    var t := Step(s, l, key);
    forall i | 0 <= i < |t.log| && Anchor(t.log[i]).Some? ensures Held(t, key, Anchor(t.log[i]).value) {
      if i < |s.log| {
        assert Held(s, key, Anchor(s.log[i]).value);
        HeldStays(s, l, key, Anchor(s.log[i]).value);
      } else if l.action.InsertRow? {
        assert RequestOk(s, key, s.requests[l.action.r]);
        HeldStays(s, l, key, s.requests[l.action.r].claimedAt);
      }
    }
  }

  lemma StepUnderway(s: State, l: Label, key: string)
    requires SerialStep(s, l, key)
    ensures UnderwayAfterAnchors(Step(s, l, key))
  {
    var t := Step(s, l, key);
    forall r | 0 <= r < |t.requests| && ToInsert(t.requests[r]) ensures AnchorsPast(t) {
      assert r < |s.requests|;
      forall i | 0 <= i < |t.log| && Anchor(t.log[i]).Some? ensures t.now >= Anchor(t.log[i]).value + TTL {
        if i < |s.log| {
          assert Held(s, key, Anchor(s.log[i]).value);
          if ToInsert(s.requests[r]) { assert AnchorsPast(s); }
        }
      }
    }
  }

  lemma StepRowsSpaced(s: State, l: Label, key: string)
    requires SerialStep(s, l, key)
    ensures RowsSpaced(Step(s, l, key).log)
  {
    if l.action.InsertRow? {
      assert ToInsert(s.requests[l.action.r]);
      assert AnchorsPast(s);
    }
  }

  lemma StepSerial(s: State, l: Label, key: string)
    requires SerialStep(s, l, key)
    ensures SerialInv(Step(s, l, key), key)
  {
    StepOneAtATime(s, l, key);
    StepRequestsOk(s, l, key);
    StepAnchorsHeld(s, l, key);
    StepUnderway(s, l, key);
    StepRowsSpaced(s, l, key);
  }

  lemma {:induction false} ExpiryAlwaysSet(states: seq<State>, labels: seq<Label>, key: string, k: nat)
    requires IsRun(states, labels, key) && k < |states|
    ensures key in states[k].store ==> states[k].store[key].expiry.Some?
  {
    if k > 0 { ExpiryAlwaysSet(states, labels, key, k - 1); }
  }

  lemma {:induction false} SerialRunInv(states: seq<State>, labels: seq<Label>, key: string, k: nat)
    requires IsRun(states, labels, key) && Serial(states, labels) && k < |states|
    ensures SerialInv(states[k], key)
  {
    if k > 0 {
      SerialRunInv(states, labels, key, k - 1);
      ExpiryAlwaysSet(states, labels, key, k - 1);
      StepSerial(states[k - 1], labels[k - 1], key);
    }
  }

  /** In serial runs a row comes 24 hours or more after the claim of every earlier row, even when
      requests fail midway; and 24 hours after the earlier row itself when its request completed
      in between, or inserted at the moment it claimed. */
  lemma SerialRowsApart(states: seq<State>, labels: seq<Label>, key: string, k: nat, i: nat, j: nat)
    requires IsRun(states, labels, key) && Serial(states, labels) && k < |states|
    requires i < j < |states[k].log| && states[k].log[i].what.Row? && states[k].log[j].what.Row?
    ensures var log := states[k].log;
            log[j].time >= log[i].what.claimedAt + TTL
            && ((log[i].what.claimedAt == log[i].time
                 || exists c :: i < c < j && log[c].what.Stored?)
                ==> log[j].time >= log[i].time + TTL)
  {
    SerialRunInv(states, labels, key, k);
    var log := states[k].log;
    RunInv(states, labels, key, k);
    if c :| i < c < j && log[c].what.Stored? {
      assert Anchor(log[c]) == Some(log[c].time);
    }
  }

  ghost predicate SerialTo(states: seq<State>, labels: seq<Label>, key: string, s: State) {
    IsRun(states, labels, key) && Serial(states, labels) && states[|labels|] == s
  }

  lemma Extend(states: seq<State>, labels: seq<Label>, key: string, s: State, l: Label)
    returns (states': seq<State>, labels': seq<Label>)
    requires SerialTo(states, labels, key, s) && Enabled(s, l)
    requires l.action.RunGet? ==> forall r | 0 <= r < |s.requests| :: Idle(s.requests[r])
    ensures SerialTo(states', labels', key, Step(s, l, key))
  {
    states', labels' := states + [Step(s, l, key)], labels + [l];
  }

  /** The first request: claims, inserts `lag` seconds later, then fails. */
  lemma SlowFailure(key: string, lag: nat) returns (states: seq<State>, labels: seq<Label>)
    ensures SerialTo(states, labels, key,
              State(map[key := CacheStore.Entry(Text(IN_FLIGHT), Some(TTL))], [Ended],
                    [Note(0, Miss), Note(0, Win), Note(lag, Row(0))], lag))
  {
    var held := map[key := CacheStore.Entry(Text(IN_FLIGHT), Some(TTL))];
    states, labels := [State(map[], [], [], 0)], [];
    states, labels := Extend(states, labels, key, State(map[], [], [], 0), Label(0, Arrive));
    var s1 := State(map[], [Arrived], [], 0);
    assert SerialTo(states, labels, key, s1);
    states, labels := Extend(states, labels, key, s1, Label(0, RunGet(0)));
    var s2 := State(map[], [Missed], [Note(0, Miss)], 0);
    assert SerialTo(states, labels, key, s2);
    states, labels := Extend(states, labels, key, s2, Label(0, RunSetNx(0)));
    var s3 := State(held, [Claimed(0)], [Note(0, Miss), Note(0, Win)], 0);
    assert SerialTo(states, labels, key, s3);
    states, labels := Extend(states, labels, key, s3, Label(lag, InsertRow(0)));
    var s4 := State(held, [Inserted(0)], [Note(0, Miss), Note(0, Win), Note(lag, Row(0))], lag);
    assert SerialTo(states, labels, key, s4);
    states, labels := Extend(states, labels, key, s4, Label(lag, Fail(0)));
  }

  /** A retry once the key has expired inserts a second row at once. */
  lemma SlowFailureComesCloser(key: string, lag: nat) returns (states: seq<State>, labels: seq<Label>)
    requires lag > 0
    ensures CloseRows(states, labels, key, lag)
  {
    states, labels := SlowFailure(key, lag);
    var at: int := if lag < TTL then TTL else lag;
    var held := map[key := CacheStore.Entry(Text(IN_FLIGHT), Some(TTL))];
    var again := map[key := CacheStore.Entry(Text(IN_FLIGHT), Some(at + TTL))];
    var first := [Note(0, Miss), Note(0, Win), Note(lag, Row(0))];
    states, labels := Extend(states, labels, key, State(held, [Ended], first, lag), Label(at, Arrive));
    var s6 := State(held, [Ended, Arrived], first, at);
    assert SerialTo(states, labels, key, s6);
    states, labels := Extend(states, labels, key, s6, Label(at, RunGet(1)));
    var s7 := State(held, [Ended, Missed], first + [Note(at, Miss)], at);
    assert SerialTo(states, labels, key, s7);
    states, labels := Extend(states, labels, key, s7, Label(at, RunSetNx(1)));
    var s8 := State(again, [Ended, Claimed(at)], first + [Note(at, Miss)] + [Note(at, Win)], at);
    assert SerialTo(states, labels, key, s8);
    states, labels := Extend(states, labels, key, s8, Label(at, InsertRow(1)));
    var log := states[|labels|].log;
    assert log[2] == Note(lag, Row(0)) && log[5] == Note(at, Row(at));
    assert RowsClose(log, lag, 2, 5);
  }

  /** Row `i` was inserted `lag` after its claim, and row `j` comes less than 24 hours after it. */
  predicate RowsClose(log: seq<Note>, lag: int, i: nat, j: nat) {
    && i < j < |log| && log[i].what.Row? && log[j].what.Row?
    && log[i].time == log[i].what.claimedAt + lag
    && log[j].time < log[i].time + TTL
  }

  /** A serial run that ends with two such rows. */
  ghost predicate CloseRows(states: seq<State>, labels: seq<Label>, key: string, lag: int) {
    IsRun(states, labels, key) && Serial(states, labels) && exists i, j :: RowsClose(states[|labels|].log, lag, i, j)
  }

  /** Rows of serial runs are 24 hours apart whatever fails if and only if a request inserts its
      row at the moment it claims the key: any lag between the two admits a run with closer rows. */
  lemma RowsApartExactly(key: string, lag: nat)
    ensures (exists states, labels :: CloseRows(states, labels, key, lag)) <==> lag > 0
  {
    if lag > 0 {
      var states, labels := SlowFailureComesCloser(key, lag);
    } else if states: seq<State>, labels: seq<Label> :| CloseRows(states, labels, key, lag) {
      var i: nat, j: nat :| RowsClose(states[|labels|].log, lag, i, j);
      SerialRowsApart(states, labels, key, |labels|, i, j);
      assert false;
    }
  }
}
