/** The Gregorian calendar operations the recurring schedule asks of its date library:
    the month-length table of RFC 3339 section 5.7 with the leap rule of its Appendix C,
    the checked field replacements, and the step to a neighbouring day.  Years are unbounded. */
module Calendar {
  import opened Wrappers

  predicate IsLeap(year: int) {
    year % 4 == 0 && (year % 100 != 0 || year % 400 == 0)
  }

  predicate IsMonth(month: int) {
    1 <= month <= 12
  }

  function MonthLength(year: int, month: int): nat
    requires IsMonth(month)
  {
    if month == 2 then (if IsLeap(year) then 29 else 28)
    else if month == 4 || month == 6 || month == 9 || month == 11 then 30
    else 31
  }

  predicate DayExists(year: int, month: int, day: int) {
    IsMonth(month) && 1 <= day <= MonthLength(year, month)
  }

  datatype RawDate = Date(year: int, month: int, day: int)
  type Date = d: RawDate | DayExists(d.year, d.month, d.day) witness Date(1, 1, 1)

  /** `from_ymd_opt`: None when the day does not exist. */
  function FromYmd(year: int, month: int, day: int): Option<Date> {
    if DayExists(year, month, day) then Some(Date(year, month, day)) else None
  }

  /** The field replacements, None when the resulting date does not exist. */
  function WithYear(date: Date, year: int): Option<Date> {
    FromYmd(year, date.month, date.day)
  }

  function WithMonth(date: Date, month: int): Option<Date> {
    FromYmd(date.year, month, date.day)
  }

  function WithDay(date: Date, day: int): Option<Date> {
    FromYmd(date.year, date.month, day)
  }

  /** The next day. */
  function Succ(date: Date): Date {
    if date.day < MonthLength(date.year, date.month) then date.(day := date.day + 1)
    else if date.month < 12 then Date(date.year, date.month + 1, 1)
    else Date(date.year + 1, 1, 1)
  }

  /** The previous day, `pred_opt`. */
  function Pred(date: Date): Date {
    if date.day > 1 then date.(day := date.day - 1)
    else if date.month > 1 then Date(date.year, date.month - 1, MonthLength(date.year, date.month - 1))
    else Date(date.year - 1, 12, 31)
  }

  /** `dt + Duration::days(n)`. */
  function PlusDays(date: Date, n: nat): Date
    decreases n
  {
    if n == 0 then date else PlusDays(Succ(date), n - 1)
  }

  // ---------- day numbers ----------

  /** Days before 1 January of `year`, counted from 1 January of year 1. */
  function DaysBeforeYear(year: int): int {
    365 * (year - 1) + (year - 1) / 4 - (year - 1) / 100 + (year - 1) / 400
  }

  function YearLength(year: int): nat {
    if IsLeap(year) then 366 else 365
  }

  /** Days of a year before the first of `month`. */
  function DaysBefore(year: int, month: int): nat
    requires IsMonth(month)
  {
    var leap := if IsLeap(year) then 1 else 0;
    if month <= 2 then (month - 1) * 31
    else if month <= 7 then 28 + leap + 30 * (month - 2) + month / 2
    else 28 + leap + 30 * (month - 2) + (month + 1) / 2
  }

  /** The closed form is the running sum of the table. */
  lemma TableSums(year: int, month: int)
    requires IsMonth(month)
    ensures if month < 12 then DaysBefore(year, month + 1) == DaysBefore(year, month) + MonthLength(year, month)
            else YearLength(year) == DaysBefore(year, month) + MonthLength(year, month)
  {
    assert (month + 1) / 2 == month / 2 + month % 2;
  }

  function DayNumber(date: Date): int {
    DaysBeforeYear(date.year) + DaysBefore(date.year, date.month) + date.day
  }

  lemma DivideNext(k: int, n: int)
    requires n > 1
    ensures (k + 1) / n == k / n + (if (k + 1) % n == 0 then 1 else 0)
  {
    var q, r := k / n, k % n;
    if r + 1 == n {
      assert n * (q + 1) == n * q + n;
      QuotientUnique(k + 1, n, q + 1, 0);
    } else {
      QuotientUnique(k + 1, n, q, r + 1);
    }
  }

  lemma QuotientUnique(k: int, n: int, q: int, r: int)
    requires n > 0 && k == n * q + r && 0 <= r < n
    ensures k / n == q && k % n == r
  {
    var d := k / n - q;
    assert n * d == r - k % n by { assert n * d == n * (k / n) - n * q; }
    assert d >= 1 ==> n * d >= n;
    assert d <= -1 ==> n * d <= -n;
  }

  lemma MultipleOf(k: int, m: int, n: int)
    requires m > 0 && n > 0 && k % (m * n) == 0
    ensures k % n == 0
  {
    var q := k / (m * n);
    assert k == (m * n) * q;
    assert (m * n) * q == n * (m * q);
    QuotientUnique(k, n, m * q, 0);
  }

  lemma YearStep(year: int)
    ensures DaysBeforeYear(year + 1) == DaysBeforeYear(year) + YearLength(year)
  {
    DivideNext(year - 1, 4);
    DivideNext(year - 1, 100);
    DivideNext(year - 1, 400);
    if year % 400 == 0 { MultipleOf(year, 4, 100); }
    if year % 100 == 0 { MultipleOf(year, 25, 4); }
  }

  /** The neighbouring days have the neighbouring numbers. */
  lemma SuccNumber(date: Date)
    ensures DayNumber(Succ(date)) == DayNumber(date) + 1
  {
    TableSums(date.year, date.month);
    if date.month == 12 { YearStep(date.year); }
  }

  lemma PredNumber(date: Date)
    ensures DayNumber(Pred(date)) == DayNumber(date) - 1
  {
    if date.day == 1 && date.month > 1 {
      TableSums(date.year, date.month - 1);
    } else if date.day == 1 {
      TableSums(date.year - 1, 12);
      YearStep(date.year - 1);
    }
  }

  lemma {:induction false} YearsLater(a: int, b: int)
    requires a < b
    ensures DaysBeforeYear(a) + YearLength(a) <= DaysBeforeYear(b)
    decreases b - a
  {
    YearStep(a);
    if a + 1 < b { YearsLater(a + 1, b); }
  }

  lemma {:induction false} MonthsLater(year: int, a: int, b: int)
    requires IsMonth(a) && IsMonth(b) && a < b
    ensures DaysBefore(year, a) + MonthLength(year, a) <= DaysBefore(year, b)
    decreases b - a
  {
    TableSums(year, a);
    if a + 1 < b { MonthsLater(year, a + 1, b); }
  }

  lemma WithinYear(date: Date)
    ensures 1 <= DaysBefore(date.year, date.month) + date.day <= YearLength(date.year)
  {
    TableSums(date.year, date.month);
    if date.month < 12 {
      TableSums(date.year, 12);
      MonthsLater(date.year, date.month, 12);
    }
  }

  predicate Earlier(a: Date, b: Date) {
    a.year < b.year
    || (a.year == b.year && (a.month < b.month || (a.month == b.month && a.day < b.day)))
  }

  /** Day numbers order dates as the calendar does. */
  lemma DayNumberOrders(a: Date, b: Date)
    ensures Earlier(a, b) <==> DayNumber(a) < DayNumber(b)
  {
    if Earlier(a, b) { EarlierIsLess(a, b); }
    if Earlier(b, a) { EarlierIsLess(b, a); }
  }

  lemma EarlierIsLess(a: Date, b: Date)
    requires Earlier(a, b)
    ensures DayNumber(a) < DayNumber(b)
  {
    WithinYear(a);
    WithinYear(b);
    if a.year < b.year {
      YearsLater(a.year, b.year);
    } else if a.month < b.month {
      MonthsLater(a.year, a.month, b.month);
    }
  }

  /** Every integer is the number of exactly one date: the calendar has no gap and no overlap. */
  lemma {:induction false} DayNumberBijective(n: int) returns (date: Date)
    ensures DayNumber(date) == n
    ensures forall d: Date :: DayNumber(d) == n ==> d == date
    decreases if n >= 1 then n - 1 else 1 - n
  {
    if n == 1 {
      date := Date(1, 1, 1);
    } else if n > 1 {
      var d := DayNumberBijective(n - 1);
      SuccNumber(d);
      date := Succ(d);
    } else {
      var d := DayNumberBijective(n + 1);
      PredNumber(d);
      date := Pred(d);
    }
    forall d: Date | DayNumber(d) == n ensures d == date {
      DayNumberOrders(d, date);
      DayNumberOrders(date, d);
    }
  }

  lemma {:induction false} PlusDaysAdds(date: Date, n: nat)
    ensures DayNumber(PlusDays(date, n)) == DayNumber(date) + n
    decreases n
  {
    if n > 0 {
      SuccNumber(date);
      PlusDaysAdds(Succ(date), n - 1);
    }
  }

  lemma LeapRepeats(year: int)
    ensures IsLeap(year + 400) <==> IsLeap(year)
  {
    QuotientUnique(year + 400, 4, year / 4 + 100, year % 4);
    QuotientUnique(year + 400, 100, year / 100 + 4, year % 100);
    QuotientUnique(year + 400, 400, year / 400 + 1, year % 400);
  }

  lemma DaysRepeat(year: int)
    ensures DaysBeforeYear(year + 400) == DaysBeforeYear(year) + 146097
  {
    var k := year - 1;
    QuotientUnique(k + 400, 4, k / 4 + 100, k % 4);
    QuotientUnique(k + 400, 100, k / 100 + 4, k % 100);
    QuotientUnique(k + 400, 400, k / 400 + 1, k % 400);
  }

  /** The calendar repeats after 400 years of 146097 days in all. */
  lemma FourCenturies(date: Date)
    ensures DayExists(date.year + 400, date.month, date.day)
    ensures DayNumber(Date(date.year + 400, date.month, date.day)) == DayNumber(date) + 146097
  {
    LeapRepeats(date.year);
    DaysRepeat(date.year);
  }

  /** Days a February has, by the days from its first to the first of March: 28 in 2023 and 1900, 29
      in 2024 and 2000.  The Unix epoch is day 719163. */
  lemma KnownDates()
    ensures DayNumber(Date(1970, 1, 1)) == 719163
    ensures DayNumber(Date(2023, 3, 1)) - DayNumber(Date(2023, 2, 1)) == 28
    ensures DayNumber(Date(2024, 3, 1)) - DayNumber(Date(2024, 2, 1)) == 29
    ensures DayNumber(Date(1900, 3, 1)) - DayNumber(Date(1900, 2, 1)) == 28
    ensures DayNumber(Date(2000, 3, 1)) - DayNumber(Date(2000, 2, 1)) == 29
  {
  }
}
