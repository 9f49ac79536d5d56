/** The Redis key store: atomic commands on string keys with expiry. */
module CacheStore {
  import opened Wrappers

  datatype Value = Text(text: string) | Counter(count: nat)
  datatype Entry = Entry(value: Value, expiry: Option<int>)
  type Store = map<string, Entry>

  /** The key is present and has not expired at `now`. */
  predicate Live(store: Store, key: string, now: int) {
    key in store && (store[key].expiry.Some? ==> now < store[key].expiry.value)
  }

  /** SET NX EX. */
  function PutNew(store: Store, key: string, value: string, ttl: nat, now: int): (Store, bool) {
    if Live(store, key, now) then (store, false)
    else (store[key := Entry(Text(value), Some(now + ttl))], true)
  }

  /** SET EX. */
  function Put(store: Store, key: string, value: string, ttl: nat, now: int): Store {
    store[key := Entry(Text(value), Some(now + ttl))]
  }

  function Lookup(store: Store, key: string, now: int): Option<Value> {
    if Live(store, key, now) then Some(store[key].value) else None
  }

  /** INCR then EXPIRE NX, in one transaction; INCR fails on an entry that is not a counter. */
  function Increment(store: Store, key: string, ttl: nat, now: int): (Store, Result<nat, ()>) {
    if !Live(store, key, now) then (store[key := Entry(Counter(1), Some(now + ttl))], Ok(1))
    else
      match store[key].value
      case Text(_) => (store, Err(()))
      case Counter(n) =>
        var expiry := if store[key].expiry.Some? then store[key].expiry else Some(now + ttl);
        (store[key := Entry(Counter(n + 1), expiry)], Ok(n + 1))
  }

  class Cache {
    var store: Store

    constructor ()
      ensures store == map[]
    {
      store := map[];
    }

    method SetNxEx(key: string, value: string, ttl: nat, now: int) returns (claimed: bool)
      modifies this
      ensures (store, claimed) == PutNew(old(store), key, value, ttl, now)
    {
      claimed := !Live(store, key, now);
      if claimed {
        store := store[key := Entry(Text(value), Some(now + ttl))];
      }
    }

    method Get(key: string, now: int) returns (r: Option<Value>)
      ensures r == Lookup(store, key, now)
    {
      r := if Live(store, key, now) then Some(store[key].value) else None;
    }

    method SetEx(key: string, value: string, ttl: nat, now: int)
      modifies this
      ensures store == Put(old(store), key, value, ttl, now)
    {
      store := store[key := Entry(Text(value), Some(now + ttl))];
    }

    method IncrWithTtl(key: string, ttl: nat, now: int) returns (r: Result<nat, ()>)
      modifies this
      ensures (store, r) == Increment(old(store), key, ttl, now)
    {
      var count := 0;
      var expiry := None;
      if Live(store, key, now) {
        match store[key].value {
          case Text(_) => return Err(());
          case Counter(n) => count := n;
        }
        expiry := store[key].expiry;
      }
      count := count + 1;
      if expiry == None {
        expiry := Some(now + ttl);
      }
      store := store[key := Entry(Counter(count), expiry)];
      return Ok(count);
    }
  }

  // ---------- runs ----------

  datatype Op =
    | SetNx(key: string, value: string, ttl: nat)
    | Set(key: string, value: string, ttl: nat)
    | Get(key: string)
    | Incr(key: string, ttl: nat)

  datatype Timed = Timed(time: int, op: Op)

  function Exec(store: Store, t: Timed): Store {
    match t.op
    case SetNx(key, value, ttl) => PutNew(store, key, value, ttl, t.time).0
    case Set(key, value, ttl) => Put(store, key, value, ttl, t.time)
    case Get(_) => store
    case Incr(key, ttl) => Increment(store, key, ttl, t.time).0
  }

  /** The store after commands from any number of clients, in the order Redis ran them. */
  function After(ops: seq<Timed>): Store {
    if ops == [] then map[] else Exec(After(ops[..|ops| - 1]), ops[|ops| - 1])
  }

  ghost predicate Monotone(ops: seq<Timed>) {
    forall i, j | 0 <= i <= j < |ops| :: ops[i].time <= ops[j].time
  }

  /** Command `i` found `key` absent or expired. */
  predicate FindsNothing(ops: seq<Timed>, i: nat, key: string)
    requires i < |ops|
  {
    ops[i].op.key == key && !Live(After(ops[..i]), key, ops[i].time)
  }

  /** Command `i` is a SET NX that set `key`. */
  predicate Claims(ops: seq<Timed>, i: nat, key: string, ttl: nat)
    requires i < |ops|
  {
    ops[i].op.SetNx? && ops[i].op.ttl == ttl && FindsNothing(ops, i, key)
  }

  /** No plain SET between `i` and `j` gives the key a shorter life. */
  ghost predicate NotShortened(ops: seq<Timed>, i: nat, j: nat, key: string, ttl: nat)
    requires i <= j <= |ops|
  {
    forall k | i < k < j && ops[k].op.Set? && ops[k].op.key == key :: ops[k].op.ttl >= ttl
  }

  /** The key is kept until `until` at least, or that time has come. */
  predicate KeptUntil(store: Store, key: string, until: int, now: int) {
    (key in store && store[key].expiry.Some? && store[key].expiry.value >= until) || now >= until
  }

  lemma ExecKeeps(store: Store, t: Timed, key: string, until: int, now: int)
    requires KeptUntil(store, key, until, now) && now <= t.time
    requires t.op.Set? && t.op.key == key ==> t.time + t.op.ttl >= until
    ensures KeptUntil(Exec(store, t), key, until, t.time)
  {
  }

  lemma {:induction false} ClaimHoldsUntil(ops: seq<Timed>, i: nat, n: nat, key: string, ttl: nat)
    requires Monotone(ops) && i < n <= |ops| && Claims(ops, i, key, ttl) && NotShortened(ops, i, n, key, ttl)
    ensures KeptUntil(After(ops[..n]), key, ops[i].time + ttl, ops[n - 1].time)
  {
    assert ops[..n][..n - 1] == ops[..n - 1];
    assert ops[i].time <= ops[n - 1].time;
    if n > i + 1 {
      ClaimHoldsUntil(ops, i, n - 1, key, ttl);
      ExecKeeps(After(ops[..n - 1]), ops[n - 1], key, ops[i].time + ttl, ops[n - 2].time);
    }
  }

  /** After a successful SET NX nothing finds the key missing for a whole time-to-live, whatever
      else any client runs in between, short of a plain SET with a smaller one. */
  lemma ClaimLasts(ops: seq<Timed>, i: nat, j: nat, key: string, ttl: nat)
    requires Monotone(ops) && i < j < |ops|
    requires Claims(ops, i, key, ttl) && NotShortened(ops, i, j, key, ttl)
    requires FindsNothing(ops, j, key)
    ensures ops[j].time >= ops[i].time + ttl
  {
    ClaimHoldsUntil(ops, i, j, key, ttl);
    assert ops[j - 1].time <= ops[j].time;
  }
}
