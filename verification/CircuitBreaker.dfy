/** The three-state circuit breaker around Stripe, e-mail and webhook calls.

    A call has two critical sections with the inner call running unlocked between
    them, so any number of calls overlap.  A run is therefore an arbitrary sequence
    of `Begin` and `Finish` events; nothing pairs a finish with the phase its call
    began in.  The counters are proved against a reference machine that has no
    counters: it remembers the finishes since its phase began and looks at them. */
module CircuitBreaker {
  import opened Wrappers

  datatype Phase = Closed | Open | HalfOpen

  datatype Config = Config(failureThreshold: nat, cooldown: nat, successThreshold: nat)

  /** The fields behind the mutex.  Times are readings of a monotonic clock. */
  datatype Inner = Inner(phase: Phase, failures: nat, successes: nat, openedAt: Option<int>)

  const FRESH := Inner(Closed, 0, 0, None)

  function Elapsed(openedAt: Option<int>, now: int): nat {
    match openedAt
    case None => 0
    case Some(t) => if now >= t then now - t else 0
  }

  /** First critical section: the new fields, and whether the inner call is made. */
  function BeginCall(cfg: Config, c: Inner, now: int): (Inner, bool) {
    if c.phase != Open then (c, true)
    else if Elapsed(c.openedAt, now) >= cfg.cooldown then
      (c.(phase := HalfOpen, successes := 0, failures := 0), true)
    else (c, false)
  }

  /** Second critical section, run with the outcome of the inner call. */
  function FinishCall(cfg: Config, c: Inner, ok: bool, now: int): Inner {
    if ok then
      var c1 := c.(failures := 0);
      if c1.phase != HalfOpen then c1
      else if c1.successes + 1 >= cfg.successThreshold then
        c1.(phase := Closed, successes := 0, openedAt := None)
      else c1.(successes := c1.successes + 1)
    else
      var c1 := c.(successes := 0, failures := c.failures + 1);
      var shouldOpen := match c1.phase
        case HalfOpen => true
        case Closed => c1.failures >= cfg.failureThreshold
        case Open => false;
      if shouldOpen then c1.(phase := Open, openedAt := Some(now)) else c1
  }

  /** The breaker itself: one instance per guarded service. */
  class CircuitBreaker {
    const cfg: Config
    var phase: Phase
    var failures: nat
    var successes: nat
    var openedAt: Option<int>

    function Fields(): Inner
      reads this
    {
      Inner(phase, failures, successes, openedAt)
    }

    constructor (cfg: Config)
      ensures this.cfg == cfg && Fields() == FRESH
    {
      this.cfg := cfg;
      phase, failures, successes, openedAt := Closed, 0, 0, None;
    }

    /** Pre-call section; `admitted` is false when the caller gets `BreakerError::Open`. */
    method PreCall(now: int) returns (admitted: bool)
      modifies this
      ensures (Fields(), admitted) == BeginCall(cfg, old(Fields()), now)
    {
      if phase == Open {
        var elapsed := Elapsed(openedAt, now);
        if elapsed >= cfg.cooldown {
          phase := HalfOpen;
          successes := 0;
          failures := 0;
        } else {
          return false;
        }
      }
      return true;
    }

    /** Post-call section. */
    method PostCall(ok: bool, now: int)
      modifies this
      ensures Fields() == FinishCall(cfg, old(Fields()), ok, now)
    {
      if ok {
        failures := 0;
        if phase == HalfOpen {
          successes := successes + 1;
          if successes >= cfg.successThreshold {
            phase := Closed;
            successes := 0;
            openedAt := None;
          }
        }
      } else {
        successes := 0;
        failures := failures + 1;
        var shouldOpen := phase == HalfOpen || (phase == Closed && failures >= cfg.failureThreshold);
        if shouldOpen {
          phase := Open;
          openedAt := Some(now);
        }
      }
    }
  }

  // ---------- runs ----------

  datatype Kind = Begin | Finish(ok: bool)
  datatype Event = Event(time: int, kind: Kind)

  function Apply(cfg: Config, c: Inner, e: Event): Inner {
    match e.kind
    case Begin => BeginCall(cfg, c, e.time).0
    case Finish(ok) => FinishCall(cfg, c, ok, e.time)
  }

  /** The fields after a whole run. */
  function Run(cfg: Config, events: seq<Event>): Inner {
    if events == [] then FRESH
    else Apply(cfg, Run(cfg, events[..|events| - 1]), events[|events| - 1])
  }

  predicate Admits(cfg: Config, c: Inner, e: Event) {
    e.kind == Begin && BeginCall(cfg, c, e.time).1
  }

  /** Calls whose inner call has begun and not finished. */
  function InFlight(cfg: Config, events: seq<Event>): int {
    if events == [] then 0
    else
      var before := events[..|events| - 1];
      var e := events[|events| - 1];
      InFlight(cfg, before)
      + (if Admits(cfg, Run(cfg, before), e) then 1 else if e.kind.Finish? then -1 else 0)
  }

  predicate Monotone(events: seq<Event>) {
    forall i, j | 0 <= i <= j < |events| :: events[i].time <= events[j].time
  }

  // ---------- the reference machine ----------

  /** `recent` lists the finishes since the phase began, oldest first; while Open, since the
      phase before it began. */
  datatype Reference =
    | RClosed(recent: seq<bool>)
    | ROpen(since: int, recent: seq<bool>)
    | RHalfOpen(recent: seq<bool>)

  /** The last `n` finishes exist and are all failures. */
  predicate LastAllFail(recent: seq<bool>, n: nat) {
    n <= |recent| && forall k | |recent| - n <= k < |recent| :: !recent[k]
  }

  predicate AllSucceed(recent: seq<bool>) {
    forall k | 0 <= k < |recent| :: recent[k]
  }

  /** A threshold of zero acts as one: the first failure (success) already meets it. */
  function AtLeastOne(threshold: nat): nat {
    if threshold == 0 then 1 else threshold
  }

  /** A call is refused only while Open, and only before the cooldown has passed. */
  predicate MayBegin(cfg: Config, r: Reference, time: int) {
    r.ROpen? ==> time >= r.since + cfg.cooldown || cfg.cooldown == 0
  }

  function ReferenceStep(cfg: Config, r: Reference, e: Event): Reference {
    match (r, e.kind)
    case (RClosed(recent), Finish(ok)) =>
      if LastAllFail(recent + [ok], AtLeastOne(cfg.failureThreshold)) then ROpen(e.time, recent + [ok])
      else RClosed(recent + [ok])
    case (RHalfOpen(recent), Finish(ok)) =>
      if !AllSucceed(recent + [ok]) then ROpen(e.time, recent + [ok])
      else if |recent + [ok]| >= AtLeastOne(cfg.successThreshold) then RClosed([])
      else RHalfOpen(recent + [ok])
    case (ROpen(since, recent), Finish(ok)) => ROpen(since, recent + [ok])
    case (ROpen(_, _), Begin) => if MayBegin(cfg, r, e.time) then RHalfOpen([]) else r
    case _ => r
  }

  function ReferenceRun(cfg: Config, events: seq<Event>): Reference {
    if events == [] then RClosed([])
    else ReferenceStep(cfg, ReferenceRun(cfg, events[..|events| - 1]), events[|events| - 1])
  }

  /** `failures` is the length of the failing tail of `recent`. */
  predicate FailingTail(recent: seq<bool>, failures: nat) {
    LastAllFail(recent, failures)
    && (failures < |recent| ==> recent[|recent| - failures - 1])
  }

  predicate Refines(cfg: Config, c: Inner, r: Reference) {
    match r
    case RClosed(recent) =>
      c.phase == Closed && c.openedAt == None && c.successes == 0
      && FailingTail(recent, c.failures) && c.failures < AtLeastOne(cfg.failureThreshold)
    case ROpen(since, recent) =>
      c.phase == Open && c.openedAt == Some(since) && c.successes == 0 && FailingTail(recent, c.failures)
    case RHalfOpen(recent) =>
      c.phase == HalfOpen && c.openedAt.Some? && c.failures == 0
      && AllSucceed(recent) && c.successes == |recent| < AtLeastOne(cfg.successThreshold)
  }

  lemma StepRefines(cfg: Config, c: Inner, r: Reference, e: Event)
    requires Refines(cfg, c, r)
    ensures Refines(cfg, Apply(cfg, c, e), ReferenceStep(cfg, r, e))
  {
    if e.kind.Finish? {
      var recent := r.recent + [e.kind.ok];
      assert recent[|recent| - 1] == e.kind.ok;
      if !r.RHalfOpen? {
        if e.kind.ok {
          assert !LastAllFail(recent, AtLeastOne(cfg.failureThreshold));
        } else {
          assert LastAllFail(recent, c.failures + 1);
          assert c.failures < |r.recent| ==> recent[|recent| - (c.failures + 1) - 1];
        }
      } else {
        assert forall k | 0 <= k < |r.recent| :: recent[k] == r.recent[k];
      }
    }
  }

  /** Every run, of any overlapping calls and under any clock: the counters decide exactly
      what the finishes since the phase began decide. */
  lemma {:induction false} RunRefines(cfg: Config, events: seq<Event>)
    ensures Refines(cfg, Run(cfg, events), ReferenceRun(cfg, events))
  {
    if events != [] {
      var before := events[..|events| - 1];
      RunRefines(cfg, before);
      StepRefines(cfg, Run(cfg, before), ReferenceRun(cfg, before), events[|events| - 1]);
    }
  }

  /** The documented meaning of the transitions, for every reachable state: what the
      finishes since the phase began say is exactly what happens. */
  lemma TransitionsExactly(cfg: Config, before: seq<Event>, e: Event)
    ensures var c, c', r := Run(cfg, before), Run(cfg, before + [e]), ReferenceRun(cfg, before);
            && (c.phase == Closed ==> r.RClosed?)
            && (c.phase == Closed && e.kind.Finish? ==>
                  (c'.phase == Open <==> LastAllFail(r.recent + [e.kind.ok], AtLeastOne(cfg.failureThreshold))))
            && (c.phase == HalfOpen ==> r.RHalfOpen?)
            && (c.phase == HalfOpen && e.kind.Finish? ==>
                  (c'.phase == Closed <==>
                    AllSucceed(r.recent + [e.kind.ok]) && |r.recent| + 1 == AtLeastOne(cfg.successThreshold)))
            && (c.phase == HalfOpen ==> (c'.phase == Open <==> e.kind == Finish(false)))
            && (c.phase == Open ==> c'.phase != Closed)
            && (c.phase == Closed ==> c'.phase != HalfOpen)
            && (c.phase != Open && e.kind.Begin? ==> c' == c)
  {
    RunRefines(cfg, before);
    StepRefines(cfg, Run(cfg, before), ReferenceRun(cfg, before), e);
    assert (before + [e])[..|before|] == before;
    var r := ReferenceRun(cfg, before);
    if r.RHalfOpen? && e.kind.Finish? {
      assert (r.recent + [e.kind.ok])[|r.recent|] == e.kind.ok;
      assert forall k | 0 <= k < |r.recent| :: (r.recent + [e.kind.ok])[k] == r.recent[k];
    }
  }

  /** Who is admitted, exactly, in every run: everyone but those who find the breaker Open with its
      cooldown not yet passed.  A half-open breaker admits every call. */
  lemma AdmittedExactly(cfg: Config, events: seq<Event>, time: int)
    ensures var r := ReferenceRun(cfg, events);
            Admits(cfg, Run(cfg, events), Event(time, Begin))
            <==> !r.ROpen? || time >= r.since + cfg.cooldown || cfg.cooldown == 0
  {
    RunRefines(cfg, events);
  }

  /** The failure counter, exactly, in every run: the failing tail of the finishes the reference
      machine remembers, and zero while half-open. */
  lemma FailuresExactly(cfg: Config, events: seq<Event>)
    ensures var c, r := Run(cfg, events), ReferenceRun(cfg, events);
            if r.RHalfOpen? then c.failures == 0 && c.successes == |r.recent|
            else FailingTail(r.recent, c.failures) && c.successes == 0
  {
    RunRefines(cfg, events);
  }

  // ---------- what every run keeps ----------

  /** `opened_at` is set exactly outside Closed, successes are counted only in HalfOpen, and
      HalfOpen holds no failures. */
  lemma {:induction false} FieldsAgree(cfg: Config, events: seq<Event>)
    ensures var c := Run(cfg, events);
            && (c.openedAt == None <==> c.phase == Closed)
            && (c.successes > 0 ==> c.phase == HalfOpen)
            && (c.phase == HalfOpen ==> c.failures == 0)
  {
    RunRefines(cfg, events);
  }

  /** Event `i` of the run takes the breaker into Open. */
  predicate OpensAt(cfg: Config, events: seq<Event>, i: nat)
    requires i < |events|
  {
    Run(cfg, events[..i]).phase != Open && Run(cfg, events[..i + 1]).phase == Open
  }

  lemma RunSplit(cfg: Config, events: seq<Event>, i: nat)
    requires i < |events|
    ensures Run(cfg, events[..i + 1]) == Apply(cfg, Run(cfg, events[..i]), events[i])
  {
    assert events[..i + 1][..i] == events[..i];
  }

  /** How one event leaves or enters Open. */
  lemma OpenStep(cfg: Config, c: Inner, e: Event)
    ensures var c' := Apply(cfg, c, e);
            && (c.phase == Open && c'.phase == Open ==> c'.openedAt == c.openedAt)
            && (c.phase == Open && c'.phase != Open ==> Elapsed(c.openedAt, e.time) >= cfg.cooldown)
            && (c.phase != Open && c'.phase == Open ==> c'.openedAt == Some(e.time))
  {
  }

  /** After an opening at `i`, the breaker is still in that Open phase with `opened_at` equal to
      the time of the opening, or the cooldown after it has elapsed. */
  lemma {:induction false} OpeningHolds(cfg: Config, events: seq<Event>, i: nat, n: nat)
    requires Monotone(events) && i < n <= |events| && OpensAt(cfg, events, i)
    ensures var c := Run(cfg, events[..n]);
            (c.phase == Open && c.openedAt == Some(events[i].time))
            || events[i].time + cfg.cooldown <= events[n - 1].time
  {
    RunSplit(cfg, events, n - 1);
    OpenStep(cfg, Run(cfg, events[..n - 1]), events[n - 1]);
    if n > i + 1 {
      OpeningHolds(cfg, events, i, n - 1);
      assert events[i].time <= events[n - 2].time <= events[n - 1].time;
    }
  }

  /** No inner call begins between an opening and its cooldown, however calls overlap. */
  lemma NoCallDuringCooldown(cfg: Config, events: seq<Event>, i: nat, j: nat)
    requires Monotone(events) && i < j < |events| && OpensAt(cfg, events, i)
    requires Admits(cfg, Run(cfg, events[..j]), events[j])
    ensures events[j].time >= events[i].time + cfg.cooldown
  {
    OpeningHolds(cfg, events, i, j);
    assert events[j - 1].time <= events[j].time;
    assert events[i].time <= events[j].time;
  }

  /** Two openings are at least a cooldown apart. */
  lemma OpeningsApart(cfg: Config, events: seq<Event>, i: nat, j: nat)
    requires Monotone(events) && i < j < |events|
    requires OpensAt(cfg, events, i) && OpensAt(cfg, events, j)
    ensures events[j].time >= events[i].time + cfg.cooldown
  {
    OpeningHolds(cfg, events, i, j);
    assert events[j - 1].time <= events[j].time;
  }

  /** A failure that arrives while Open is possible (its call began before the opening) and
      moves neither the phase nor `opened_at`. */
  lemma LateFinishKeepsOpening(cfg: Config, before: seq<Event>, ok: bool, time: int)
    requires Run(cfg, before).phase == Open
    ensures var c' := Run(cfg, before + [Event(time, Finish(ok))]);
            c'.phase == Open && c'.openedAt == Run(cfg, before).openedAt
  {
    assert (before + [Event(time, Finish(ok))])[..|before|] == before;
  }

  /** The Open phase the run ends in began at event `i`. */
  ghost predicate OpenSince(cfg: Config, events: seq<Event>, i: nat) {
    && i < |events|
    && OpensAt(cfg, events, i)
    && forall n | i < n <= |events| :: Run(cfg, events[..n]).phase == Open
  }

  lemma {:induction false} LastOpening(cfg: Config, events: seq<Event>) returns (i: nat)
    requires Run(cfg, events).phase == Open
    ensures OpenSince(cfg, events, i)
  {
    assert events[..|events|] == events;
    var before := events[..|events| - 1];
    if Run(cfg, before).phase == Open {
      i := LastOpening(cfg, before);
      assert events[..i] == before[..i] && events[..i + 1] == before[..i + 1];
      forall n | i < n <= |events| ensures Run(cfg, events[..n]).phase == Open {
        if n < |events| { assert events[..n] == before[..n]; }
      }
    } else {
      i := |events| - 1;
      assert events[..i + 1] == events;
    }
  }

  /** A finish that leaves the breaker Open adds at most one failure. */
  lemma OpenFailures(cfg: Config, c: Inner, r: Reference, e: Event)
    requires Refines(cfg, c, r) && Apply(cfg, c, e).phase == Open
    ensures c.phase == Open ==> Apply(cfg, c, e).failures <= c.failures + (if e.kind.Finish? then 1 else 0)
    ensures c.phase == Open ==> !Admits(cfg, c, e)
    ensures c.phase != Open ==> Apply(cfg, c, e).failures <= AtLeastOne(cfg.failureThreshold)
  {
  }

  lemma {:induction false} FailuresBoundedFrom(cfg: Config, events: seq<Event>, i: nat, n: nat)
    requires i < n <= |events| && OpenSince(cfg, events, i)
    ensures Run(cfg, events[..n]).failures + InFlight(cfg, events[..n])
            <= AtLeastOne(cfg.failureThreshold) + InFlight(cfg, events[..i + 1])
  {
    var before, e := events[..n - 1], events[n - 1];
    RunRefines(cfg, before);
    assert events[..n][..n - 1] == before;
    OpenFailures(cfg, Run(cfg, before), ReferenceRun(cfg, before), e);
    if n > i + 1 {
      FailuresBoundedFrom(cfg, events, i, n - 1);
    }
  }

  /** While Open, every failure past the threshold was already in flight at the opening; in the
      other phases the failure counter stays under its threshold. */
  lemma FailuresBounded(cfg: Config, events: seq<Event>)
    ensures Run(cfg, events).phase != Open ==> Run(cfg, events).failures < AtLeastOne(cfg.failureThreshold)
    ensures Run(cfg, events).phase == Open ==>
              exists i: nat :: OpenSince(cfg, events, i)
                && Run(cfg, events).failures + InFlight(cfg, events)
                   <= AtLeastOne(cfg.failureThreshold) + InFlight(cfg, events[..i + 1])
  {
    RunRefines(cfg, events);
    if Run(cfg, events).phase == Open {
      var i := LastOpening(cfg, events);
      FailuresBoundedFrom(cfg, events, i, |events|);
      assert events[..|events|] == events;
    }
  }

  // ---------- the arm marked unreachable ----------

  /** Never more than `m` calls in flight, and no finish without its call. */
  predicate AtMostInFlight(cfg: Config, events: seq<Event>, m: nat) {
    forall n | 0 <= n <= |events| :: 0 <= InFlight(cfg, events[..n]) <= m
  }

  /** Event `i` is a failing finish that finds the breaker Open. */
  predicate FailsWhileOpen(cfg: Config, events: seq<Event>, i: nat) {
    i < |events| && events[i].kind == Finish(false) && Run(cfg, events[..i]).phase == Open
  }

  ghost predicate ReachesOpenArm(cfg: Config, events: seq<Event>, m: nat) {
    Monotone(events) && AtMostInFlight(cfg, events, m) && exists i: nat :: FailsWhileOpen(cfg, events, i)
  }

  /** With one call at a time nothing is in flight while Open: the finish that opens is the last. */
  lemma {:induction false} NoneInFlightWhileOpen(cfg: Config, events: seq<Event>, n: nat)
    requires AtMostInFlight(cfg, events, 1) && n <= |events|
    ensures Run(cfg, events[..n]).phase == Open ==> InFlight(cfg, events[..n]) == 0
  {
    if n > 0 {
      NoneInFlightWhileOpen(cfg, events, n - 1);
      assert events[..n][..n - 1] == events[..n - 1];
      assert 0 <= InFlight(cfg, events[..n - 1]) <= 1 && 0 <= InFlight(cfg, events[..n]) <= 1;
    }
  }

  const BEGIN := Event(0, Begin)
  const FAILURE := Event(0, Finish(false))

  lemma InFlightPush(cfg: Config, events: seq<Event>, e: Event)
    ensures Run(cfg, events + [e]) == Apply(cfg, Run(cfg, events), e)
    ensures InFlight(cfg, events + [e]) == InFlight(cfg, events)
            + if Admits(cfg, Run(cfg, events), e) then 1 else if e.kind.Finish? then -1 else 0
  {
    assert (events + [e])[..|events|] == events;
  }

  lemma AtMostPush(cfg: Config, events: seq<Event>, e: Event, m: nat)
    requires AtMostInFlight(cfg, events, m) && 0 <= InFlight(cfg, events + [e]) <= m
    ensures AtMostInFlight(cfg, events + [e], m)
  {
    forall n | 0 <= n <= |events| + 1 ensures 0 <= InFlight(cfg, (events + [e])[..n]) <= m {
      assert (events + [e])[..n] == if n <= |events| then events[..n] else events + [e];
    }
  }

  /** A run of events at time 0 that leaves these failures and calls in flight, still closed. */
  ghost predicate ClosedWith(cfg: Config, events: seq<Event>, failures: nat, inFlight: nat) {
    && (forall k | 0 <= k < |events| :: events[k].time == 0)
    && AtMostInFlight(cfg, events, 2)
    && Run(cfg, events) == FRESH.(failures := failures) && InFlight(cfg, events) == inFlight
  }

  lemma OneMoreBegins(cfg: Config, events: seq<Event>, failures: nat, inFlight: nat)
    requires ClosedWith(cfg, events, failures, inFlight) && inFlight < 2
    ensures ClosedWith(cfg, events + [BEGIN], failures, inFlight + 1)
  {
    InFlightPush(cfg, events, BEGIN);
    AtMostPush(cfg, events, BEGIN, 2);
  }

  lemma OneFails(cfg: Config, events: seq<Event>)
    requires AtMostInFlight(cfg, events, 2) && InFlight(cfg, events) > 0
    ensures AtMostInFlight(cfg, events + [FAILURE], 2)
    ensures InFlight(cfg, events + [FAILURE]) == InFlight(cfg, events) - 1
    ensures Run(cfg, events + [FAILURE]) == FinishCall(cfg, Run(cfg, events), false, 0)
  {
    InFlightPush(cfg, events, FAILURE);
    assert events[..|events|] == events;
    AtMostPush(cfg, events, FAILURE, 2);
  }

  /** Failing calls one after the other, short of the threshold. */
  lemma {:induction false} FailuresInTurn(cfg: Config, n: nat) returns (events: seq<Event>)
    requires n < AtLeastOne(cfg.failureThreshold)
    ensures ClosedWith(cfg, events, n, 0)
  {
    if n == 0 {
      events := [];
    } else {
      var before := FailuresInTurn(cfg, n - 1);
      OneMoreBegins(cfg, before, n - 1, 0);
      OneFails(cfg, before + [BEGIN]);
      events := before + [BEGIN] + [FAILURE];
    }
  }

  lemma TwoFailuresReach(cfg: Config, events: seq<Event>, failures: nat)
    requires ClosedWith(cfg, events, failures, 2) && failures + 1 == AtLeastOne(cfg.failureThreshold)
    ensures AtMostInFlight(cfg, events + [FAILURE] + [FAILURE], 2)
    ensures FailsWhileOpen(cfg, events + [FAILURE] + [FAILURE], |events| + 1)
  {
    OneFails(cfg, events);
    OneFails(cfg, events + [FAILURE]);
    assert (events + [FAILURE] + [FAILURE])[..|events| + 1] == events + [FAILURE];
  }

  /** One failure short of the threshold, then two calls that overlap and both fail. */
  lemma OverlapReachesOpenArm(cfg: Config) returns (events: seq<Event>)
    ensures ReachesOpenArm(cfg, events, 2)
  {
    var last: nat := AtLeastOne(cfg.failureThreshold) - 1;
    var before := FailuresInTurn(cfg, last);
    OneMoreBegins(cfg, before, last, 0);
    OneMoreBegins(cfg, before + [BEGIN], last, 1);
    events := before + [BEGIN] + [BEGIN];
    TwoFailuresReach(cfg, events, last);
    events := events + [FAILURE] + [FAILURE];
  }

  lemma OneCallNeverReaches(cfg: Config, events: seq<Event>, i: nat)
    requires AtMostInFlight(cfg, events, 1)
    ensures !FailsWhileOpen(cfg, events, i)
  {
    if i < |events| {
      NoneInFlightWhileOpen(cfg, events, i);
      assert events[..i + 1][..i] == events[..i];
      assert InFlight(cfg, events[..i + 1]) >= 0;
    }
  }

  /** The arm marked unreachable in the post-call section is reached exactly when two calls may be
      in flight at once, whatever the thresholds and the cooldown. */
  lemma OpenArmIsReached(cfg: Config, m: nat)
    ensures (exists events :: ReachesOpenArm(cfg, events, m)) <==> m >= 2
  {
    if m >= 2 {
      var events := OverlapReachesOpenArm(cfg);
      assert ReachesOpenArm(cfg, events, m);
    } else {
      forall events: seq<Event> ensures !ReachesOpenArm(cfg, events, m) {
        if AtMostInFlight(cfg, events, m) {
          forall i: nat ensures !FailsWhileOpen(cfg, events, i) { OneCallNeverReaches(cfg, events, i); }
        }
      }
    }
  }
}
