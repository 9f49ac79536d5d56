/** A cadence: the points reached from a start by repeating one step, and the loop that walks
    them until it is past a given moment.  The step may get stuck; a stuck loop never ends. */
module Cadence {
  import opened Wrappers

  /** Every step moves forward in time or does not move at all. */
  ghost predicate MovesOrSticks<T(!new)>(step: T -> T, at: T -> int) {
    forall t: T :: step(t) == t || at(step(t)) > at(t)
  }

  /** The `k`-th point of the cadence. */
  function Point<T>(start: T, step: T -> T, k: nat): T {
    if k == 0 then start else step(Point(start, step, k - 1))
  }

  /** The loop run from `next`; None stands for a loop that never ends, recognised by a step
      that does not move. */
  ghost function FirstAfter<T(!new)>(next: T, step: T -> T, at: T -> int, now: int): Option<T>
    requires MovesOrSticks(step, at)
    decreases now - at(next)
  {
    if at(next) > now then Some(next)
    else if step(next) == next then None
    else FirstAfter(step(next), step, at, now)
  }

  /** No point is ever past `now`. */
  ghost predicate Diverges<T>(start: T, step: T -> T, at: T -> int, now: int) {
    forall k: nat :: at(Point(start, step, k)) <= now
  }

  /** The `m`-th point is the first one past `now`. */
  ghost predicate FirstPast<T>(start: T, step: T -> T, at: T -> int, now: int, m: nat) {
    at(Point(start, step, m)) > now && forall j: nat | j < m :: at(Point(start, step, j)) <= now
  }

  /** The walk has stuck at its `m`-th point, not past `now`. */
  ghost predicate SticksAt<T>(start: T, step: T -> T, at: T -> int, now: int, m: nat) {
    var p := Point(start, step, m);
    step(p) == p && at(p) <= now
  }

  lemma {:induction false} PointsGrow<T(!new)>(start: T, step: T -> T, at: T -> int, j: nat, k: nat)
    requires MovesOrSticks(step, at) && j <= k
    ensures at(Point(start, step, j)) <= at(Point(start, step, k))
  {
    if j < k { PointsGrow(start, step, at, j, k - 1); }
  }

  lemma {:induction false} StuckForever<T>(start: T, step: T -> T, k: nat, j: nat)
    requires step(Point(start, step, k)) == Point(start, step, k) && k <= j
    ensures Point(start, step, j) == Point(start, step, k)
  {
    if k < j { StuckForever(start, step, k, j - 1); }
  }

  /** A sequence that starts at the start and steps along is the cadence. */
  lemma {:induction false} PointsFollow<T>(start: T, step: T -> T, walk: nat -> T, k: nat)
    requires walk(0) == start && forall j: nat | j < k :: step(walk(j)) == walk(j + 1)
    ensures Point(start, step, k) == walk(k)
  {
    if k > 0 { PointsFollow(start, step, walk, k - 1); }
  }

  /** The loop entered at the `k`-th point finds the first point past `now`, or sticks. */
  lemma {:induction false} LoopFrom<T(!new)>(start: T, step: T -> T, at: T -> int, now: int, k: nat) returns (m: nat)
    requires MovesOrSticks(step, at)
    requires forall j: nat | j < k :: at(Point(start, step, j)) <= now
    ensures match FirstAfter(Point(start, step, k), step, at, now)
            case Some(r) => r == Point(start, step, m) && FirstPast(start, step, at, now, m)
            case None => SticksAt(start, step, at, now, m)
    decreases now - at(Point(start, step, k))
  {
    var p := Point(start, step, k);
    if at(p) <= now && step(p) != p {
      assert Point(start, step, k + 1) == step(p);
      m := LoopFrom(start, step, at, now, k + 1);
    } else {
      m := k;
    }
  }

  /** A result is the least cadence point strictly after `now`: all earlier points, the
      predecessor among them, are at or before it. */
  lemma ResultIsLeast<T(!new)>(start: T, step: T -> T, at: T -> int, now: int) returns (m: nat)
    requires MovesOrSticks(step, at) && FirstAfter(start, step, at, now).Some?
    ensures FirstAfter(start, step, at, now) == Some(Point(start, step, m))
    ensures FirstPast(start, step, at, now, m)
    ensures forall j: nat :: at(Point(start, step, j)) > now ==>
              at(Point(start, step, m)) <= at(Point(start, step, j))
  {
    m := LoopFrom(start, step, at, now, 0);
    forall j: nat | at(Point(start, step, j)) > now
      ensures at(Point(start, step, m)) <= at(Point(start, step, j))
    {
      PointsGrow(start, step, at, m, if j >= m then j else m);
    }
  }

  /** No result exactly when the loop never ends. */
  lemma NoneExactlyWhenDiverging<T(!new)>(start: T, step: T -> T, at: T -> int, now: int)
    requires MovesOrSticks(step, at)
    ensures FirstAfter(start, step, at, now) == None <==> Diverges(start, step, at, now)
    ensures Diverges(start, step, at, now) <==> exists m: nat :: SticksAt(start, step, at, now, m)
  {
    var m := LoopFrom(start, step, at, now, 0);
    if exists m: nat :: SticksAt(start, step, at, now, m) {
      var s: nat :| SticksAt(start, step, at, now, s);
      forall k: nat ensures at(Point(start, step, k)) <= now {
        if k <= s { PointsGrow(start, step, at, k, s); } else { StuckForever(start, step, s, k); }
      }
    }
  }

  // ---------- even steps ----------

  ghost predicate StepsBy<T(!new)>(step: T -> T, at: T -> int, d: int) {
    forall t: T :: at(step(t)) == at(t) + d
  }

  lemma {:induction false} EvenPoints<T(!new)>(start: T, step: T -> T, at: T -> int, d: int, k: nat)
    requires StepsBy(step, at, d)
    ensures at(Point(start, step, k)) == at(start) + k * d
  {
    if k > 0 { EvenPoints(start, step, at, d, k - 1); }
  }

  /** Past the start, the first point past `now` is at most one step past it. */
  lemma EvenResult<T(!new)>(start: T, step: T -> T, at: T -> int, d: int, now: int, m: nat)
    requires StepsBy(step, at, d) && FirstPast(start, step, at, now, m) && at(start) <= now
    ensures 0 < at(Point(start, step, m)) - now <= d
  {
    assert at(Point(start, step, m - 1)) <= now;
  }
}
