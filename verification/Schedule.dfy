/** When a recurring template next runs: `add_months`, `advance` and `compute_next_run_at`. */
module Schedule {
  import opened Wrappers
  import opened Calendar
  import opened Cadence

  /** A UTC timestamp: a date and the nanoseconds since its midnight. */
  const DAY := 86_400_000_000_000

  datatype RawDateTime = DateTime(date: Date, time: int)
  type DateTime = t: RawDateTime | 0 <= t.time < DAY witness DateTime(Date(1, 1, 1), 0)

  function Instant(t: DateTime): int {
    DayNumber(t.date) * DAY + t.time
  }

  /** `Other` stands for any string the validation refuses; `advance` still has an arm for it. */
  datatype Frequency = Weekly | Monthly | Quarterly | Yearly | Other

  // ---------- adding months ----------

  /** Months since year zero, the quantity the two carry loops of `add_months` preserve. */
  function MonthIndex(year: int, month: int): int {
    year * 12 + month - 1
  }

  function IndexOf(date: Date): int {
    MonthIndex(date.year, date.month)
  }

  function IndexYear(index: int): int { index / 12 }

  function IndexMonth(index: int): (m: int)
    ensures IsMonth(m)
  {
    index % 12 + 1
  }

  function LengthAt(index: int): nat {
    MonthLength(IndexYear(index), IndexMonth(index))
  }

  /** First day of the next month, minus one day. */
  function LastDayOfMonth(year: int, month: int): int
    requires IsMonth(month)
  {
    var (ny, nm) := if month == 12 then (year + 1, 1) else (year, month + 1);
    match FromYmd(ny, nm, 1)
    case Some(d) => Pred(d).day
    case None => 28
  }

  /** It is the Gregorian month length: the day so numbered is the only date whose day number is
      one less than that of the first of the next month, and it lies in the month asked for. */
  lemma LastDayIsMonthLength(year: int, month: int)
    requires IsMonth(month)
    ensures LastDayOfMonth(year, month) == MonthLength(year, month)
    ensures var next := if month == 12 then Date(year + 1, 1, 1) else Date(year, month + 1, 1);
            forall d: Date ::
              DayNumber(d) == DayNumber(next) - 1 <==> d == Date(year, month, LastDayOfMonth(year, month))
  {
    var next := if month == 12 then Date(year + 1, 1, 1) else Date(year, month + 1, 1);
    PredNumber(next);
    forall d: Date ensures DayNumber(d) == DayNumber(next) - 1 <==> d == Pred(next) {
      DayNumberOrders(d, Pred(next));
      DayNumberOrders(Pred(next), d);
    }
  }

  /** The chained field replacements: the year, then the month, then the day; any step that
      names a non-existent date abandons the whole chain and keeps `dt`. */
  function Chain(dt: DateTime, year: int, month: int, day: int): DateTime {
    match WithYear(dt.date, year)
    case None => dt
    case Some(d1) =>
      match WithMonth(d1, month)
      case None => dt
      case Some(d2) =>
        match WithDay(d2, day)
        case None => dt
        case Some(d3) => dt.(date := d3)
  }

  function Min(a: int, b: int): int { if a <= b then a else b }

  /** `add_months` by arithmetic on the month index instead of by carry loops. */
  function MonthStep(dt: DateTime, months: int): DateTime {
    var target := IndexOf(dt.date) + months;
    var (year, month) := (IndexYear(target), IndexMonth(target));
    Chain(dt, year, month, Min(dt.date.day, LastDayOfMonth(year, month)))
  }

  /** `add_months`, with its loops. */
  method AddMonths(dt: DateTime, months: int) returns (r: DateTime)
    ensures r == MonthStep(dt, months)
  {
    var month := dt.date.month + months;
    var year := dt.date.year;
    while month > 12
      invariant MonthIndex(year, month) == IndexOf(dt.date) + months
    {
      month := month - 12;
      year := year + 1;
    }
    while month < 1
      invariant MonthIndex(year, month) == IndexOf(dt.date) + months
      invariant month <= 12
    {
      month := month + 12;
      year := year - 1;
    }
    IndexSplits(year, month);
    var day := Min(dt.date.day, LastDayOfMonth(year, month));
    r := Chain(dt, year, month, day);
  }

  lemma IndexSplits(year: int, month: int)
    requires IsMonth(month)
    ensures IndexYear(MonthIndex(year, month)) == year && IndexMonth(MonthIndex(year, month)) == month
  {
    QuotientUnique(MonthIndex(year, month), 12, year, month - 1);
  }

  /** The day `day` in the month with index `index`, at the time of day of `dt`. */
  function OnDay(dt: DateTime, index: int, day: int): DateTime
    requires 1 <= day <= LengthAt(index)
  {
    dt.(date := Date(IndexYear(index), IndexMonth(index), day))
  }

  /** What the chain does for every number of months: it lands on the target month with the
      day kept when that day exists there and also in the starting month of the target year;
      otherwise it returns its input. */
  lemma MonthStepExactly(dt: DateTime, months: int)
    ensures var target, day := IndexOf(dt.date) + months, dt.date.day;
            MonthStep(dt, months) ==
              if day <= LengthAt(target) && DayExists(IndexYear(target), dt.date.month, day)
              then OnDay(dt, target, day) else dt
  {
    var target := IndexOf(dt.date) + months;
    LastDayIsMonthLength(IndexYear(target), IndexMonth(target));
  }

  /** The minimum taken with the last day of the target month has no effect at all: where it would
      shorten the day, the chain has failed before it comes to the day. */
  lemma ClampIsDead(dt: DateTime, months: int)
    ensures var target := IndexOf(dt.date) + months;
            MonthStep(dt, months) == Chain(dt, IndexYear(target), IndexMonth(target), dt.date.day)
  {
    var target := IndexOf(dt.date) + months;
    LastDayIsMonthLength(IndexYear(target), IndexMonth(target));
  }

  predicate FrequencyStep(months: int) {
    months == 1 || months == 3 || months == 12
  }

  /** The three steps the frequencies use: the day is kept exactly when it exists in the target
      month, and otherwise the input comes back unchanged. */
  lemma FrequencyStepExactly(dt: DateTime, months: int)
    requires FrequencyStep(months)
    ensures var target, day := IndexOf(dt.date) + months, dt.date.day;
            MonthStep(dt, months) == if day <= LengthAt(target) then OnDay(dt, target, day) else dt
  {
    MonthStepExactly(dt, months);
    var target := IndexOf(dt.date) + months;
    if dt.date.month == 2 && months < 12 {
      IndexSplits(dt.date.year, dt.date.month + months);
    } else if months == 12 {
      IndexSplits(dt.date.year + 1, dt.date.month);
    }
  }

  /** What the comment above `add_months` asks for: the day clamped to the target month. */
  function ClampedStep(dt: DateTime, months: int): DateTime {
    var target := IndexOf(dt.date) + months;
    OnDay(dt, target, Min(dt.date.day, LengthAt(target)))
  }

  /** The code meets its comment exactly when there is nothing to clamp. */
  lemma ClampMetExactly(dt: DateTime, months: int)
    requires FrequencyStep(months)
    ensures MonthStep(dt, months) == ClampedStep(dt, months)
            <==> dt.date.day <= LengthAt(IndexOf(dt.date) + months)
  {
    FrequencyStepExactly(dt, months);
  }

  // ---------- the cadence ----------

  function MonthsOf(f: Frequency): nat {
    match f
    case Monthly => 1
    case Quarterly => 3
    case Yearly => 12
    case _ => 0
  }

  function Advance(dt: DateTime, f: Frequency): DateTime {
    match f
    case Weekly => dt.(date := PlusDays(dt.date, 7))
    case Monthly => MonthStep(dt, 1)
    case Quarterly => MonthStep(dt, 3)
    case Yearly => MonthStep(dt, 12)
    case Other => dt.(date := PlusDays(dt.date, 30))
  }

  /** `advance`, calling the looping `AddMonths`. */
  method AdvanceOnce(dt: DateTime, f: Frequency) returns (r: DateTime)
    ensures r == Advance(dt, f)
  {
    match f
    case Weekly => r := dt.(date := PlusDays(dt.date, 7));
    case Monthly => r := AddMonths(dt, 1);
    case Quarterly => r := AddMonths(dt, 3);
    case Yearly => r := AddMonths(dt, 12);
    case Other => r := dt.(date := PlusDays(dt.date, 30));
  }

  function AdvanceBy(f: Frequency): DateTime -> DateTime {
    (dt: DateTime) => Advance(dt, f)
  }

  function At(): DateTime -> int {
    (dt: DateTime) => Instant(dt)
  }

  lemma LaterMonth(a: DateTime, b: DateTime)
    requires IndexOf(a.date) < IndexOf(b.date)
    ensures Instant(a) < Instant(b)
  {
    DayNumberOrders(a.date, b.date);
  }

  /** One advance either moves forward or does not move at all; day steps always move. */
  lemma AdvanceMovesOrSticks(dt: DateTime, f: Frequency)
    ensures Advance(dt, f) == dt || Instant(Advance(dt, f)) > Instant(dt)
    ensures MonthsOf(f) == 0 ==> Advance(dt, f) != dt
    ensures MonthsOf(f) != 0 ==>
              (Advance(dt, f) != dt <==> dt.date.day <= LengthAt(IndexOf(dt.date) + MonthsOf(f)))
  {
    if MonthsOf(f) == 0 {
      PlusDaysAdds(dt.date, 7);
      PlusDaysAdds(dt.date, 30);
    } else {
      FrequencyStepExactly(dt, MonthsOf(f));
      if dt.date.day <= LengthAt(IndexOf(dt.date) + MonthsOf(f)) {
        LaterMonth(dt, Advance(dt, f));
      }
    }
  }

  /** One advance by days: seven for a week, thirty for an unknown frequency, at the same time of day. */
  lemma DayAdvanceExactly(dt: DateTime)
    ensures DayNumber(Advance(dt, Weekly).date) == DayNumber(dt.date) + 7
    ensures DayNumber(Advance(dt, Other).date) == DayNumber(dt.date) + 30
    ensures Advance(dt, Weekly).time == dt.time && Advance(dt, Other).time == dt.time
  {
    PlusDaysAdds(dt.date, 7);
    PlusDaysAdds(dt.date, 30);
  }

  /** One advance by months: one, three or twelve months on at the same day and time, if that month
      has the day, and otherwise none at all. */
  lemma MonthAdvanceExactly(dt: DateTime, f: Frequency, n: int)
    requires (f, n) in {(Monthly, 1), (Quarterly, 3), (Yearly, 12)}
    ensures var target := IndexOf(dt.date) + n;
            if dt.date.day <= MonthLength(target / 12, target % 12 + 1)
            then Advance(dt, f) == DateTime(Date(target / 12, target % 12 + 1, dt.date.day), dt.time)
            else Advance(dt, f) == dt
  {
    FrequencyStepExactly(dt, n);
  }

  lemma StepMoves(f: Frequency)
    ensures MovesOrSticks(AdvanceBy(f), At())
  {
    forall dt: DateTime ensures AdvanceBy(f)(dt) == dt || At()(AdvanceBy(f)(dt)) > At()(dt) {
      AdvanceMovesOrSticks(dt, f);
    }
  }

  /** What `compute_next_run_at(start, f)` yields at time `now`; None when it never returns. */
  ghost function NextRun(start: DateTime, f: Frequency, now: int): Option<DateTime> {
    StepMoves(f);
    FirstAfter(start, AdvanceBy(f), At(), now)
  }

  /** `compute_next_run_at`, with the clock reading as a parameter.  An advance that does not
      move would repeat for ever; the method reports it instead of looping. */
  method ComputeNextRunAt(from: DateTime, f: Frequency, now: int) returns (r: Option<DateTime>)
    ensures r == NextRun(from, f, now)
  {
    StepMoves(f);
    var next := from;
    while Instant(next) <= now
      invariant FirstAfter(next, AdvanceBy(f), At(), now) == FirstAfter(from, AdvanceBy(f), At(), now)
      decreases now - Instant(next)
    {
      var n := AdvanceOnce(next, f);
      AdvanceMovesOrSticks(next, f);
      if n == next {
        return None;
      }
      next := n;
    }
    return Some(next);
  }

  /** A result is the least point of the cadence strictly after `now`. */
  lemma NextRunIsLeast(start: DateTime, f: Frequency, now: int) returns (m: nat)
    requires NextRun(start, f, now).Some?
    ensures NextRun(start, f, now) == Some(Point(start, AdvanceBy(f), m))
    ensures FirstPast(start, AdvanceBy(f), At(), now, m)
    ensures forall j: nat :: Instant(Point(start, AdvanceBy(f), j)) > now ==>
              Instant(NextRun(start, f, now).value) <= Instant(Point(start, AdvanceBy(f), j))
  {
    StepMoves(f);
    m := ResultIsLeast(start, AdvanceBy(f), At(), now);
    forall j: nat | Instant(Point(start, AdvanceBy(f), j)) > now
      ensures Instant(NextRun(start, f, now).value) <= Instant(Point(start, AdvanceBy(f), j))
    {
      assert At()(Point(start, AdvanceBy(f), j)) > now;
    }
  }

  /** A week in nanoseconds. */
  lemma WeekSteps()
    ensures StepsBy(AdvanceBy(Weekly), At(), 7 * 86_400_000_000_000)
  {
    forall dt: DateTime ensures At()(AdvanceBy(Weekly)(dt)) == At()(dt) + 7 * 86_400_000_000_000 {
      DayAdvanceExactly(dt);
    }
  }

  /** The k-th weekly point is k weeks after the start. */
  lemma WeeklyPoint(start: DateTime, k: nat)
    ensures Instant(Point(start, AdvanceBy(Weekly), k)) == Instant(start) + k * (7 * 86_400_000_000_000)
  {
    WeekSteps();
    EvenPoints(start, AdvanceBy(Weekly), At(), 7 * 86_400_000_000_000, k);
  }

  /** A weekly start not in the future next runs at most seven days after now, a whole number of
      weeks after the start. */
  lemma WeeklyNextRun(start: DateTime, now: int) returns (m: nat)
    requires Instant(start) <= now
    ensures NextRun(start, Weekly, now) == Some(Point(start, AdvanceBy(Weekly), m))
    ensures Instant(Point(start, AdvanceBy(Weekly), m)) == Instant(start) + m * (7 * 86_400_000_000_000)
    ensures 0 < Instant(Point(start, AdvanceBy(Weekly), m)) - now <= 7 * 86_400_000_000_000
  {
    SafeStarts(start, Weekly, now);
    m := NextRunIsLeast(start, Weekly, now);
    WeeklyPoint(start, m);
    WeekSteps();
    EvenResult(start, AdvanceBy(Weekly), At(), 7 * 86_400_000_000_000, now, m);
  }

  /** A start in the future is itself the next run. */
  lemma FutureStart(start: DateTime, f: Frequency, now: int)
    ensures Instant(start) > now <==> NextRun(start, f, now) == Some(start)
  {
    StepMoves(f);
    if NextRun(start, f, now).Some? {
      var m := NextRunIsLeast(start, f, now);
    }
  }

  /** The loop of the source never ends. */
  ghost predicate Hangs(start: DateTime, f: Frequency, now: int) {
    Diverges(start, AdvanceBy(f), At(), now)
  }

  // ---------- exactly which starts hang ----------

  /** Month index of the `k`-th month of the cadence. */
  function IndexAfter(start: DateTime, f: Frequency, k: nat): int {
    if k == 0 then IndexOf(start.date) else IndexAfter(start, f, k - 1) + MonthsOf(f)
  }

  lemma {:induction false} IndexAfterClosed(start: DateTime, f: Frequency, k: nat)
    ensures IndexAfter(start, f, k) == IndexOf(start.date) + k * MonthsOf(f)
  {
    if k > 0 { IndexAfterClosed(start, f, k - 1); }
  }

  /** The start's day exists in the `k`-th month of its cadence. */
  predicate DayFits(start: DateTime, f: Frequency, k: nat) {
    start.date.day <= LengthAt(IndexAfter(start, f, k))
  }

  /** The `k`-th month has the day, as do all before it, and the next one lacks it. */
  ghost predicate StallsAfter(start: DateTime, f: Frequency, k: nat) {
    FitsTo(start, f, k) && !DayFits(start, f, k + 1)
  }

  /** The `k`-th point of the walk, while the day fits. */
  function Walk(start: DateTime, f: Frequency, k: nat): DateTime
    requires DayFits(start, f, k)
  {
    OnDay(start, IndexAfter(start, f, k), start.date.day)
  }

  lemma StepIsMonthStep(dt: DateTime, f: Frequency)
    requires MonthsOf(f) != 0
    ensures AdvanceBy(f)(dt) == MonthStep(dt, MonthsOf(f)) && FrequencyStep(MonthsOf(f))
  {
  }

  lemma OnDayIndex(dt: DateTime, index: int, day: int)
    requires 1 <= day <= LengthAt(index)
    ensures IndexOf(OnDay(dt, index, day).date) == index
  {
  }

  /** A step from a day of one month to the same day of another. */
  lemma MonthStepFrom(dt: DateTime, index: int, months: int)
    requires FrequencyStep(months) && dt.date.day <= LengthAt(index)
    ensures var from, target, day := OnDay(dt, index, dt.date.day), index + months, dt.date.day;
            MonthStep(from, months) == if day <= LengthAt(target) then OnDay(dt, target, day) else from
  {
    OnDayIndex(dt, index, dt.date.day);
    FrequencyStepExactly(OnDay(dt, index, dt.date.day), months);
  }

  lemma WalkStep(start: DateTime, f: Frequency, k: nat)
    requires MonthsOf(f) != 0 && DayFits(start, f, k)
    ensures AdvanceBy(f)(Walk(start, f, k))
            == if DayFits(start, f, k + 1) then Walk(start, f, k + 1) else Walk(start, f, k)
  {
    StepIsMonthStep(Walk(start, f, k), f);
    MonthStepFrom(start, IndexAfter(start, f, k), MonthsOf(f));
  }

  lemma WalkMoves(start: DateTime, f: Frequency, k: nat)
    requires MonthsOf(f) != 0 && DayFits(start, f, k) && DayFits(start, f, k + 1)
    ensures Walk(start, f, k + 1) != Walk(start, f, k)
  {
    assert IndexOf(Walk(start, f, k).date) == IndexAfter(start, f, k);
    assert IndexOf(Walk(start, f, k + 1).date) == IndexAfter(start, f, k + 1);
  }

  ghost predicate FitsTo(start: DateTime, f: Frequency, k: nat) {
    forall j: nat | j <= k :: DayFits(start, f, j)
  }

  function Walker(start: DateTime, f: Frequency): nat -> DateTime {
    (k: nat) => if DayFits(start, f, k) then Walk(start, f, k) else start
  }

  lemma WalkerSteps(start: DateTime, f: Frequency, k: nat)
    requires MonthsOf(f) != 0 && DayFits(start, f, k) && DayFits(start, f, k + 1)
    ensures AdvanceBy(f)(Walker(start, f)(k)) == Walker(start, f)(k + 1)
  {
    WalkStep(start, f, k);
  }

  lemma WalkerStart(start: DateTime, f: Frequency)
    ensures DayFits(start, f, 0) && Walker(start, f)(0) == start
  {
    IndexSplits(start.date.year, start.date.month);
  }

  /** Until the first month that lacks the day, the cadence walks month by month. */
  lemma PointWhileFits(start: DateTime, f: Frequency, k: nat)
    requires MonthsOf(f) != 0 && FitsTo(start, f, k)
    ensures DayFits(start, f, k) && Point(start, AdvanceBy(f), k) == Walk(start, f, k)
  {
    WalkerStart(start, f);
    forall j: nat | j < k ensures AdvanceBy(f)(Walker(start, f)(j)) == Walker(start, f)(j + 1) {
      WalkerSteps(start, f, j);
    }
    PointsFollow(start, AdvanceBy(f), Walker(start, f), k);
    assert DayFits(start, f, k);
  }

  /** Where the walk fits up to `k`, it sticks there exactly when the next month lacks the day. */
  lemma SticksExactly(start: DateTime, f: Frequency, k: nat)
    requires MonthsOf(f) != 0 && FitsTo(start, f, k)
    ensures var p := Point(start, AdvanceBy(f), k); AdvanceBy(f)(p) == p <==> !DayFits(start, f, k + 1)
  {
    PointWhileFits(start, f, k);
    WalkStep(start, f, k);
    if DayFits(start, f, k + 1) { WalkMoves(start, f, k); }
  }

  /** Either all months up to `m` have the day, or the walk stalls before `m`. */
  lemma {:induction false} FitsOrStalls(start: DateTime, f: Frequency, m: nat) returns (k: nat)
    ensures FitsTo(start, f, m) || (k < m && StallsAfter(start, f, k))
  {
    WalkerStart(start, f);
    k := 0;
    if m > 0 {
      k := FitsOrStalls(start, f, m - 1);
      if !(k < m - 1 && StallsAfter(start, f, k)) {
        k := m - 1;
        assert FitsTo(start, f, m) || StallsAfter(start, f, m - 1);
      }
    }
  }

  /** The walk reaches a point at or before `now` whose next month lacks the start's day. */
  ghost predicate StallsBy(start: DateTime, f: Frequency, now: int, k: nat) {
    StallsAfter(start, f, k) && Instant(Point(start, AdvanceBy(f), k)) <= now
  }

  lemma StallHangs(start: DateTime, f: Frequency, now: int, k: nat)
    requires MonthsOf(f) != 0 && StallsBy(start, f, now, k)
    ensures SticksAt(start, AdvanceBy(f), At(), now, k)
  {
    SticksExactly(start, f, k);
  }

  lemma StuckStalls(start: DateTime, f: Frequency, now: int, m: nat) returns (k: nat)
    requires SticksAt(start, AdvanceBy(f), At(), now, m)
    ensures MonthsOf(f) != 0 && StallsBy(start, f, now, k)
  {
    AdvanceMovesOrSticks(Point(start, AdvanceBy(f), m), f);
    k := FitsOrStalls(start, f, m + 1);
    if FitsTo(start, f, m + 1) {
      assert DayFits(start, f, m + 1);
      SticksExactly(start, f, m);
      assert false;
    }
    StepMoves(f);
    PointsGrow(start, AdvanceBy(f), At(), k, m);
  }

  /** The loop hangs exactly when it reaches a cadence point at or before `now` whose next month
      lacks the start's day. */
  lemma HangsExactly(start: DateTime, f: Frequency, now: int)
    ensures NextRun(start, f, now) == None <==> Hangs(start, f, now)
    ensures Hangs(start, f, now) <==> MonthsOf(f) != 0 && exists k: nat :: StallsBy(start, f, now, k)
  {
    StepMoves(f);
    NoneExactlyWhenDiverging(start, AdvanceBy(f), At(), now);
    if k: nat :| MonthsOf(f) != 0 && StallsBy(start, f, now, k) {
      StallHangs(start, f, now, k);
    }
    if m: nat :| SticksAt(start, AdvanceBy(f), At(), now, m) {
      var k := StuckStalls(start, f, now, m);
    }
  }

  /** From the point where it stalls on, it hangs. */
  lemma StalledForGood(start: DateTime, f: Frequency, k: nat, now: int)
    requires MonthsOf(f) != 0 && StallsAfter(start, f, k) && now >= Instant(Point(start, AdvanceBy(f), k))
    ensures NextRun(start, f, now) == None
  {
    assert StallsBy(start, f, now, k);
    HangsExactly(start, f, now);
  }

  lemma YearlyDayFits(start: DateTime, k: nat)
    requires !(start.date.month == 2 && start.date.day == 29)
    ensures DayFits(start, Yearly, k)
  {
    IndexAfterClosed(start, Yearly, k);
    assert IndexAfter(start, Yearly, k) == MonthIndex(start.date.year + k, start.date.month);
    IndexSplits(start.date.year + k, start.date.month);
  }

  /** The starts whose day every month of the cadence has: days up to 28, yearly ones on any day
      but 29 February, and quarterly ones up to the 30th that never meet a February. */
  predicate AlwaysFits(start: DateTime, f: Frequency) {
    || start.date.day <= 28
    || (f == Yearly && !(start.date.month == 2 && start.date.day == 29))
    || (f == Quarterly && start.date.day <= 30 && start.date.month % 3 != 2)
  }

  lemma ThreeOn(index: int)
    ensures IndexMonth(index + 3) % 3 == IndexMonth(index) % 3
  {
  }

  /** A quarterly walk keeps its place within the quarters. */
  lemma {:induction false} QuarterlyMonth(start: DateTime, k: nat)
    ensures IndexMonth(IndexAfter(start, Quarterly, k)) % 3 == IndexMonth(IndexOf(start.date)) % 3
  {
    if k > 0 {
      QuarterlyMonth(start, k - 1);
      ThreeOn(IndexAfter(start, Quarterly, k - 1));
    }
  }

  lemma LongEnough(index: int)
    requires IndexMonth(index) % 3 != 2
    ensures LengthAt(index) >= 30
  {
  }

  lemma QuarterlyDayFits(start: DateTime, k: nat)
    requires start.date.day <= 30 && start.date.month % 3 != 2
    ensures DayFits(start, Quarterly, k)
  {
    QuarterlyMonth(start, k);
    IndexSplits(start.date.year, start.date.month);
    LongEnough(IndexAfter(start, Quarterly, k));
  }

  lemma AlwaysFitsEveryMonth(start: DateTime, f: Frequency, k: nat)
    requires MonthsOf(f) != 0 && AlwaysFits(start, f)
    ensures DayFits(start, f, k)
  {
    if start.date.day > 28 {
      if f == Yearly { YearlyDayFits(start, k); } else { QuarterlyDayFits(start, k); }
    }
  }

  /** Safe for every `now`: day-based frequencies and the starts above. */
  lemma SafeStarts(start: DateTime, f: Frequency, now: int)
    requires MonthsOf(f) == 0 || AlwaysFits(start, f)
    ensures NextRun(start, f, now).Some?
  {
    HangsExactly(start, f, now);
    if MonthsOf(f) != 0 {
      forall k: nat ensures DayFits(start, f, k) { AlwaysFitsEveryMonth(start, f, k); }
    }
  }

  /** A start whose very next month lacks its day (31 January monthly, say) hangs as soon as the
      start itself is not in the future. */
  lemma HangsAtOnce(start: DateTime, f: Frequency, now: int)
    requires MonthsOf(f) != 0 && start.date.day > LengthAt(IndexOf(start.date) + MonthsOf(f))
    ensures NextRun(start, f, now) == None <==> Instant(start) <= now
  {
    AdvanceMovesOrSticks(start, f);
    assert AdvanceBy(f)(start) == start;
  }

  /** No yearly start on 29 February ever runs a second time. */
  lemma LeapDayHangs(start: DateTime, now: int)
    requires start.date.month == 2 && start.date.day == 29
    ensures NextRun(start, Yearly, now) == None <==> Instant(start) <= now
  {
    IndexSplits(start.date.year + 1, 2);
    assert IndexOf(start.date) + 12 == MonthIndex(start.date.year + 1, 2);
    HangsAtOnce(start, Yearly, now);
  }

  /** The month with this number in a later year, reached after `k` steps. */
  lemma MonthReached(start: DateTime, f: Frequency, k: nat, year: int, month: int)
    requires IsMonth(month) && IndexOf(start.date) + k * MonthsOf(f) == MonthIndex(year, month)
    ensures DayFits(start, f, k) <==> start.date.day <= MonthLength(year, month)
  {
    IndexAfterClosed(start, f, k);
    IndexSplits(year, month);
  }

  /** A year without a 29 February, this one or one of the next two, whose February is to come. */
  function CommonYear(date: Date): int {
    var first := if date.month <= 1 then date.year else date.year + 1;
    if IsLeap(first) then first + 1 else first
  }

  /** A February with 28 days lies at most 24 months ahead. */
  lemma ShortFebruary(start: DateTime) returns (k: nat)
    requires start.date.day > 28
    ensures 0 < k <= 24 && !DayFits(start, Monthly, k)
  {
    var year := CommonYear(start.date);
    k := (year - start.date.year) * 12 + 2 - start.date.month;
    MonthReached(start, Monthly, k, year, 2);
  }

  /** Months ahead to a month too short for the day, a whole number of quarters. */
  lemma ShortQuarter(start: DateTime) returns (k: nat)
    requires !AlwaysFits(start, Quarterly)
    ensures !DayFits(start, Quarterly, k)
  {
    var rest := start.date.month % 3;
    var month := if rest == 2 then 2 else if rest == 1 then 4 else 6;
    var year := CommonYear(start.date);
    assert (month - start.date.month) % 3 == 0;
    k := (year - start.date.year) * 4 + (month - start.date.month) / 3;
    MonthReached(start, Quarterly, k, year, month);
  }

  lemma ShortMonth(start: DateTime, f: Frequency) returns (k: nat)
    requires MonthsOf(f) != 0 && !AlwaysFits(start, f)
    ensures !DayFits(start, f, k)
  {
    match f
    case Monthly => k := ShortFebruary(start);
    case Quarterly => k := ShortQuarter(start);
    case Yearly =>
      k := 1;
      MonthReached(start, f, k, start.date.year + 1, 2);
  }

  lemma HangsSometime(start: DateTime, f: Frequency) returns (now: int)
    requires MonthsOf(f) != 0 && !AlwaysFits(start, f)
    ensures NextRun(start, f, now) == None
  {
    var short := ShortMonth(start, f);
    var k := FitsOrStalls(start, f, short);
    now := Instant(Point(start, AdvanceBy(f), k));
    StalledForGood(start, f, k, now);
  }

  /** Exactly these starts have a next run at every moment. */
  lemma SafeExactly(start: DateTime, f: Frequency)
    ensures (forall now :: NextRun(start, f, now).Some?) <==> MonthsOf(f) == 0 || AlwaysFits(start, f)
  {
    if MonthsOf(f) == 0 || AlwaysFits(start, f) {
      forall now ensures NextRun(start, f, now).Some? { SafeStarts(start, f, now); }
    } else {
      var now := HangsSometime(start, f);
    }
  }

  /** Every monthly start after the 28th stalls within two years: from then on, creating,
      resuming, editing or materialising such a template never returns. */
  lemma MonthEndStartsHang(start: DateTime) returns (k: nat)
    requires start.date.day > 28
    ensures k < 24 && StallsAfter(start, Monthly, k)
    ensures forall now | now >= Instant(Point(start, AdvanceBy(Monthly), k)) :: NextRun(start, Monthly, now) == None
  {
    var february := ShortFebruary(start);
    k := FitsOrStalls(start, Monthly, february);
    forall now | now >= Instant(Point(start, AdvanceBy(Monthly), k)) ensures NextRun(start, Monthly, now) == None {
      StalledForGood(start, Monthly, k, now);
    }
  }
}
