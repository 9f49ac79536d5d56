/** Automatic invoice numbers: a count of the rows with this year's prefix, then an insert under
    the unique constraint, as two separate statements of any number of callers.

    `rows` is the invoice_number column of one organisation.  Numbers with other prefixes
    (manual ones, other years') come and go freely. */
module Numbering {
  import opened Digits

  predicate HasPrefix(number: string, prefix: string) {
    prefix <= number
  }

  function AutoNumber(prefix: string, n: nat): string {
    prefix + Print4(n)
  }

  /** The prefix of one year's numbers. */
  function Prefix(year: nat): string {
    "INV-" + Print(year) + "-"
  }

  lemma DashAfter(digits: string, s: string)
    requires AllDigits(digits) && digits + "-" <= s
    ensures s[|digits|] == '-' && forall k | 0 <= k < |digits| :: s[k] != '-'
  {
    assert (digits + "-")[|digits|] == '-';
    forall k | 0 <= k < |digits| ensures s[k] != '-' {
      assert (digits + "-")[k] == digits[k] && IsDigit(digits[k]);
    }
  }

  /** Digits and a dash at the head of a text determine the digits. */
  lemma DigitsBeforeDash(a: string, b: string, s: string)
    requires AllDigits(a) && AllDigits(b) && a + "-" <= s && b + "-" <= s
    ensures a == b
  {
    DashAfter(a, s);
    DashAfter(b, s);
    assert |a| == |b|;
    assert s[..|a|] == a && s[..|b|] == b;
  }

  lemma PrefixAfter(front: string, a: string, b: string)
    ensures front + a <= front + b <==> a <= b
  {
    assert (front + b)[|front|..] == b;
    if front + a <= front + b {
      assert (front + b)[..|front + a|][|front|..] == a;
      assert b[..|a|] == a;
    }
  }

  function Head(year: nat): string { Print(year) + "-" }

  lemma NumberIs(year: nat, n: nat)
    ensures Prefix(year) == "INV-" + Head(year)
    ensures AutoNumber(Prefix(year), n) == "INV-" + (Head(year) + Print4(n))
  {
  }

  lemma HeadOnly(a: string, b: string, tail: string)
    requires AllDigits(a) && AllDigits(b)
    ensures a + "-" <= b + "-" + tail <==> a == b
  {
    if a + "-" <= b + "-" + tail { DigitsBeforeDash(a, b, b + "-" + tail); }
  }

  /** A year's automatic numbers carry its prefix and no other year's: the years count apart. */
  lemma YearsApart(year: nat, other: nat, n: nat)
    ensures HasPrefix(AutoNumber(Prefix(other), n), Prefix(year)) <==> other == year
  {
    NumberIs(year, n);
    NumberIs(other, n);
    PrefixAfter("INV-", Head(year), Head(other) + Print4(n));
    PrintedReadsBack(year);
    PrintedReadsBack(other);
    HeadOnly(Print(year), Print(other), Print4(n));
  }

  lemma AutoNumberInjective(prefix: string, m: nat, n: nat)
    requires AutoNumber(prefix, m) == AutoNumber(prefix, n)
    ensures m == n
  {
    assert AutoNumber(prefix, m)[|prefix|..] == Print4(m);
    assert AutoNumber(prefix, n)[|prefix|..] == Print4(n);
    Print4Injective(m, n);
  }

  /** `COUNT(*) ... LIKE prefix%`. */
  function Count(rows: seq<string>, prefix: string): nat {
    if rows == [] then 0
    else Count(rows[..|rows| - 1], prefix) + (if HasPrefix(rows[|rows| - 1], prefix) then 1 else 0)
  }

  datatype Caller = Counted(count: nat) | Inserted | Conflicted

  datatype State = State(rows: seq<string>, callers: seq<Caller>)

  datatype Label = CountRows | InsertAuto(h: nat) | InsertManual(number: string)

  predicate Enabled(s: State, l: Label) {
    l.InsertAuto? ==> l.h < |s.callers| && s.callers[l.h].Counted?
  }

  function Step(s: State, l: Label, prefix: string): State
    requires Enabled(s, l)
  {
    match l
    case CountRows => s.(callers := s.callers + [Counted(Count(s.rows, prefix))])
    case InsertAuto(h) =>
      var number := AutoNumber(prefix, s.callers[h].count + 1);
      if number in s.rows then s.(callers := s.callers[h := Conflicted])
      else State(s.rows + [number], s.callers[h := Inserted])
    case InsertManual(number) => if number in s.rows then s else s.(rows := s.rows + [number])
  }

  /** Runs from an empty column. */
  ghost predicate IsRun(states: seq<State>, labels: seq<Label>, prefix: string) {
    && |states| == |labels| + 1
    && states[0] == State([], [])
    && forall k | 0 <= k < |labels| ::
         Enabled(states[k], labels[k]) && states[k + 1] == Step(states[k], labels[k], prefix)
  }

  /** No manual number uses the prefix. */
  predicate PrefixReserved(labels: seq<Label>, prefix: string) {
    forall k | 0 <= k < |labels| && labels[k].InsertManual? :: !HasPrefix(labels[k].number, prefix)
  }

  // ---------- the numbers in use ----------

  ghost predicate AutoUpTo(number: string, prefix: string, n: nat) {
    exists i: nat :: 1 <= i <= n && number == AutoNumber(prefix, i)
  }

  ghost predicate Exactly(rows: seq<string>, prefix: string, n: nat) {
    && Count(rows, prefix) == n
    && (forall number | number in rows && HasPrefix(number, prefix) :: AutoUpTo(number, prefix, n))
    && (forall i: nat | 1 <= i <= n :: AutoNumber(prefix, i) in rows)
  }

  lemma CountPush(rows: seq<string>, number: string, prefix: string)
    ensures Count(rows + [number], prefix) == Count(rows, prefix) + if HasPrefix(number, prefix) then 1 else 0
  {
    assert (rows + [number])[..|rows|] == rows;
  }

  lemma PushOther(rows: seq<string>, number: string, prefix: string, n: nat)
    requires Exactly(rows, prefix, n) && !HasPrefix(number, prefix)
    ensures Exactly(rows + [number], prefix, n)
  {
    CountPush(rows, number, prefix);
  }

  lemma PushNext(rows: seq<string>, prefix: string, n: nat)
    requires Exactly(rows, prefix, n)
    ensures Exactly(rows + [AutoNumber(prefix, n + 1)], prefix, n + 1)
  {
    var number := AutoNumber(prefix, n + 1);
    CountPush(rows, number, prefix);
    forall x | x in rows + [number] && HasPrefix(x, prefix) ensures AutoUpTo(x, prefix, n + 1) {
      if x in rows {
        OneMore(x, prefix, n);
      } else {
        assert x == AutoNumber(prefix, n + 1);
      }
    }
    forall i: nat | 1 <= i <= n + 1 ensures AutoNumber(prefix, i) in rows + [number] {
      if i <= n { assert AutoNumber(prefix, i) in rows; }
    }
  }

  lemma OneMore(x: string, prefix: string, n: nat)
    requires AutoUpTo(x, prefix, n)
    ensures AutoUpTo(x, prefix, n + 1)
  {
    var i: nat :| 1 <= i <= n && x == AutoNumber(prefix, i);
  }

  /** A caller that counted `c` rows while `n` are there: `c + 1` is free exactly when c == n. */
  lemma FreeExactly(rows: seq<string>, prefix: string, n: nat, c: nat)
    requires Exactly(rows, prefix, n) && c <= n
    ensures AutoNumber(prefix, c + 1) !in rows <==> c == n
  {
    var number := AutoNumber(prefix, c + 1);
    if number in rows {
      assert HasPrefix(number, prefix);
      assert AutoUpTo(number, prefix, n);
      var i: nat :| 1 <= i <= n && number == AutoNumber(prefix, i);
      AutoNumberInjective(prefix, c + 1, i);
    }
  }

  ghost predicate CountsPast(s: State, n: nat) {
    forall h | 0 <= h < |s.callers| && s.callers[h].Counted? :: s.callers[h].count <= n
  }

  ghost predicate Inv(s: State, prefix: string) {
    Exactly(s.rows, prefix, Count(s.rows, prefix)) && CountsPast(s, Count(s.rows, prefix))
  }

  lemma CallerDone(s: State, h: nat, x: Caller, n: nat, m: nat)
    requires CountsPast(s, n) && h < |s.callers| && !x.Counted? && n <= m
    ensures CountsPast(s.(callers := s.callers[h := x]), m)
  {
  }

  lemma InsertKeepsInv(s: State, h: nat, prefix: string)
    requires Inv(s, prefix) && Enabled(s, InsertAuto(h))
    ensures Inv(Step(s, InsertAuto(h), prefix), prefix)
  {
    var n, c := Count(s.rows, prefix), s.callers[h].count;
    FreeExactly(s.rows, prefix, n, c);
    if c == n {
      PushNext(s.rows, prefix, n);
      CallerDone(s, h, Inserted, n, n + 1);
    } else {
      CallerDone(s, h, Conflicted, n, n);
    }
  }

  lemma ManualKeepsInv(s: State, number: string, prefix: string)
    requires Inv(s, prefix) && !HasPrefix(number, prefix)
    ensures Inv(Step(s, InsertManual(number), prefix), prefix)
  {
    if number !in s.rows {
      PushOther(s.rows, number, prefix, Count(s.rows, prefix));
    }
  }

  lemma CountKeepsInv(s: State, prefix: string)
    requires Inv(s, prefix)
    ensures Inv(Step(s, CountRows, prefix), prefix)
  {
    var t := Step(s, CountRows, prefix);
    forall h | 0 <= h < |t.callers| && t.callers[h].Counted? ensures t.callers[h].count <= Count(s.rows, prefix) {
      if h < |s.callers| { assert t.callers[h] == s.callers[h]; }
    }
  }

  lemma StepKeepsInv(s: State, l: Label, prefix: string)
    requires Inv(s, prefix) && Enabled(s, l)
    requires l.InsertManual? ==> !HasPrefix(l.number, prefix)
    ensures Inv(Step(s, l, prefix), prefix)
  {
    match l
    case CountRows => CountKeepsInv(s, prefix);
    case InsertAuto(h) => InsertKeepsInv(s, h, prefix);
    case InsertManual(number) => ManualKeepsInv(s, number, prefix);
  }

  lemma {:induction false} RunInv(states: seq<State>, labels: seq<Label>, prefix: string, k: nat)
    requires IsRun(states, labels, prefix) && PrefixReserved(labels, prefix) && k < |states|
    ensures Inv(states[k], prefix)
  {
    if k > 0 {
      RunInv(states, labels, prefix, k - 1);
      StepKeepsInv(states[k - 1], labels[k - 1], prefix);
    }
  }

  /** In every run the numbers with the prefix are exactly 1..n, n the number of such rows. */
  lemma NumbersAreContiguous(states: seq<State>, labels: seq<Label>, prefix: string, k: nat, number: string)
    requires IsRun(states, labels, prefix) && PrefixReserved(labels, prefix) && k < |states|
    ensures number in states[k].rows && prefix <= number
            <==> AutoUpTo(number, prefix, Count(states[k].rows, prefix))
  {
    RunInv(states, labels, prefix, k);
    if AutoUpTo(number, prefix, Count(states[k].rows, prefix)) {
      var i: nat :| 1 <= i <= Count(states[k].rows, prefix) && number == AutoNumber(prefix, i);
      assert HasPrefix(number, prefix);
    }
  }

  /** Every insert either adds the next number or conflicts, and it conflicts exactly when some
      other caller inserted since its count. */
  lemma InsertAddsNextOrConflicts(states: seq<State>, labels: seq<Label>, prefix: string, k: nat)
    requires IsRun(states, labels, prefix) && PrefixReserved(labels, prefix)
    requires k < |labels| && labels[k].InsertAuto?
    ensures var s, t, h := states[k], states[k + 1], labels[k].h;
            var n := Count(s.rows, prefix);
            if s.callers[h].count == n
            then t.callers[h] == Inserted && t.rows == s.rows + [AutoNumber(prefix, n + 1)]
            else t.callers[h] == Conflicted && t.rows == s.rows && s.callers[h].count < n
  {
    RunInv(states, labels, prefix, k);
    var s := states[k];
    FreeExactly(s.rows, prefix, Count(s.rows, prefix), s.callers[labels[k].h].count);
  }

  // ---------- the unique constraint ----------

  predicate Unique(rows: seq<string>) {
    forall i, j | 0 <= i < j < |rows| :: rows[i] != rows[j]
  }

  lemma StepUnique(s: State, l: Label, prefix: string)
    requires Enabled(s, l) && Unique(s.rows)
    ensures Unique(Step(s, l, prefix).rows)
  {
  }

  /** No number is ever used twice, automatic or manual, whatever prefixes manual numbers take. */
  lemma {:induction false} NumbersUnique(states: seq<State>, labels: seq<Label>, prefix: string, k: nat)
    requires IsRun(states, labels, prefix) && k < |states|
    ensures Unique(states[k].rows)
  {
    if k > 0 {
      NumbersUnique(states, labels, prefix, k - 1);
      StepUnique(states[k - 1], labels[k - 1], prefix);
    }
  }

  // ---------- a lone retry ----------

  /** A caller that counts and inserts with nothing in between. */
  function Retry(s: State, prefix: string): State {
    Step(Step(s, CountRows, prefix), InsertAuto(|s.callers|), prefix)
  }

  /** The number after the count is in use. */
  predicate NextTaken(rows: seq<string>, prefix: string) {
    AutoNumber(prefix, Count(rows, prefix) + 1) in rows
  }

  /** A retry alone succeeds exactly when the number after the count is not in use. */
  lemma RetryExactly(s: State, prefix: string)
    ensures Retry(s, prefix).callers[|s.callers|] == (if NextTaken(s.rows, prefix) then Conflicted else Inserted)
    ensures Retry(s, prefix).rows == RowsAfterRetry(s.rows, prefix)
  {
  }

  function RowsAfterRetry(rows: seq<string>, prefix: string): seq<string> {
    if NextTaken(rows, prefix) then rows else rows + [AutoNumber(prefix, Count(rows, prefix) + 1)]
  }

  /** With the prefix reserved it always succeeds. */
  lemma RetrySucceeds(states: seq<State>, labels: seq<Label>, prefix: string, k: nat)
    requires IsRun(states, labels, prefix) && PrefixReserved(labels, prefix) && k < |states|
    ensures Retry(states[k], prefix).callers[|states[k].callers|] == Inserted
    ensures Retry(states[k], prefix).rows
            == states[k].rows + [AutoNumber(prefix, Count(states[k].rows, prefix) + 1)]
  {
    RunInv(states, labels, prefix, k);
    FreeExactly(states[k].rows, prefix, Count(states[k].rows, prefix), Count(states[k].rows, prefix));
  }

  /** The rows after that many retries, one after the other. */
  function RowsAfterRetries(rows: seq<string>, prefix: string, times: nat): seq<string> {
    if times == 0 then rows else RowsAfterRetry(RowsAfterRetries(rows, prefix, times - 1), prefix)
  }

  /** Once the number after the count is taken, no number of retries alone ever succeeds. */
  lemma {:induction false} BlockedForever(rows: seq<string>, prefix: string, times: nat)
    requires NextTaken(rows, prefix)
    ensures RowsAfterRetries(rows, prefix, times) == rows
  {
    if times > 0 { BlockedForever(rows, prefix, times - 1); }
  }

  /** The promise that a caller can retry past a conflict fails when a manual number takes the
      prefix: with 0002 entered by hand every retry counts one row and asks for 0002. */
  lemma ManualNumberBlocks(prefix: string, manual: string, times: nat)
    requires manual == AutoNumber(prefix, 2)
    ensures Step(State([], []), InsertManual(manual), prefix).rows == [manual]
    ensures RowsAfterRetries([manual], prefix, times) == [manual]
  {
    CountPush([], manual, prefix);
    assert [] + [manual] == [manual];
    assert HasPrefix(manual, prefix);
    assert Count([manual], prefix) == 1;
    BlockedForever([manual], prefix, times);
  }
}
