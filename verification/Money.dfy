/** Invoice totals as exact decimals, rounded when the NUMERIC columns store them. */
module Money {
  import opened Wrappers

  datatype LineItem = LineItem(quantity: real, unitPrice: real)

  function Subtotal(items: seq<LineItem>): real {
    if items == [] then 0.0
    else Subtotal(items[..|items| - 1]) + items[|items| - 1].quantity * items[|items| - 1].unitPrice
  }

  /** The subtotal is a sum over the items: of nothing it is zero, of one item quantity times unit
      price, of two lists the sum of theirs. */
  lemma {:induction false} SubtotalExactly(q: real, p: real, a: seq<LineItem>, b: seq<LineItem>)
    ensures Subtotal([]) == 0.0
    ensures Subtotal([LineItem(q, p)]) == q * p
    ensures Subtotal(a + b) == Subtotal(a) + Subtotal(b)
  {
    assert [LineItem(q, p)][..0] == [];
    if b == [] {
      assert a + b == a;
    } else {
      var n := |b| - 1;
      assert (a + b)[..|a + b| - 1] == a + b[..n];
      SubtotalExactly(q, p, a, b[..n]);
    }
  }

  /** `compute_totals`: subtotal, tax amount, total, before storage. */
  function ComputeTotals(items: seq<LineItem>, taxRate: real): (real, real, real) {
    var subtotal := Subtotal(items);
    var taxAmount := subtotal * taxRate;
    (subtotal, taxAmount, subtotal + taxAmount)
  }

  /** `n` is the integer nearest to `x`, halves rounded away from zero. */
  predicate RoundsTo(x: real, n: int) {
    if x >= 0.0 then n as real - 0.5 <= x < n as real + 0.5
    else n as real - 0.5 < x <= n as real + 0.5
  }

  lemma RoundsToOne(x: real)
    ensures exists n :: RoundsTo(x, n)
    ensures forall m, n :: RoundsTo(x, m) && RoundsTo(x, n) ==> m == n
  {
    if x >= 0.0 {
      assert RoundsTo(x, (x + 0.5).Floor);
    } else {
      assert RoundsTo(x, -((-x + 0.5).Floor));
    }
  }

  function Nearest(x: real): (n: int)
    ensures RoundsTo(x, n)
  {
    if x >= 0.0 then (x + 0.5).Floor else -((-x + 0.5).Floor)
  }

  lemma NearestIs(x: real, n: int)
    requires RoundsTo(x, n)
    ensures Nearest(x) == n
  {
    RoundsToOne(x);
  }

  /** A NUMERIC(14,2) column in hundredths; None is the overflow error. */
  function Numeric14x2(x: real): Option<int> {
    var n := Nearest(x * 100.0);
    if -100_000_000_000_000 < n < 100_000_000_000_000 then Some(n) else None
  }

  /** A NUMERIC(6,4) column in ten-thousandths. */
  function Numeric6x4(x: real): Option<int> {
    var n := Nearest(x * 10000.0);
    if -1_000_000 < n < 1_000_000 then Some(n) else None
  }

  function Rate(taxRate: int): real { taxRate as real / 10000.0 }

  /** The money columns as stored; cents, and the rate in ten-thousandths. */
  datatype Amounts = Amounts(subtotal: int, taxRate: int, taxAmount: int, total: int)

  /** Storing the four values; None when a column overflows. */
  function Columns(totals: (real, real, real), taxRate: real): Option<Amounts> {
    var (s, r, t, g) := (Numeric14x2(totals.0), Numeric6x4(taxRate), Numeric14x2(totals.1), Numeric14x2(totals.2));
    if s.Some? && r.Some? && t.Some? && g.Some? then Some(Amounts(s.value, r.value, t.value, g.value)) else None
  }

  /** What INSERT or UPDATE stores for these items and rate. */
  function Store(items: seq<LineItem>, taxRate: real): Option<Amounts> {
    Columns(ComputeTotals(items, taxRate), taxRate)
  }

  lemma Cents(x: real, n: int)
    ensures Numeric14x2(x) == Some(n) <==> RoundsTo(x * 100.0, n) && Abs(n) < 100_000_000_000_000
  {
    RoundsToOne(x * 100.0);
  }

  lemma TenThousandths(x: real, n: int)
    ensures Numeric6x4(x) == Some(n) <==> RoundsTo(x * 10000.0, n) && Abs(n) < 1_000_000
  {
    RoundsToOne(x * 10000.0);
  }

  predicate Column14x2(x: real, n: int) {
    RoundsTo(x * 100.0, n) && Abs(n) < 100_000_000_000_000
  }

  predicate Column6x4(x: real, n: int) {
    RoundsTo(x * 10000.0, n) && Abs(n) < 1_000_000
  }

  /** Each column holds the nearest multiple of its unit. */
  predicate StoredAs(subtotal: real, taxRate: real, taxAmount: real, total: real, m: Amounts) {
    && Column14x2(subtotal, m.subtotal) && Column6x4(taxRate, m.taxRate)
    && Column14x2(taxAmount, m.taxAmount) && Column14x2(total, m.total)
  }

  lemma ColumnsExactly(subtotal: real, taxRate: real, taxAmount: real, total: real, m: Amounts)
    ensures Columns((subtotal, taxAmount, total), taxRate) == Some(m)
            <==> StoredAs(subtotal, taxRate, taxAmount, total, m)
  {
    Cents(subtotal, m.subtotal);
    TenThousandths(taxRate, m.taxRate);
    Cents(taxAmount, m.taxAmount);
    Cents(total, m.total);
  }

  lemma TotalsExactly(items: seq<LineItem>, taxRate: real, tax: real)
    requires tax == Subtotal(items) * taxRate
    ensures ComputeTotals(items, taxRate) == (Subtotal(items), tax, Subtotal(items) + tax)
  {
    var (s, t, g) := ComputeTotals(items, taxRate);
    assert s == Subtotal(items) && t == tax && g == s + t;
  }

  /** What is stored, exactly: the sum over the items, the rate, the rate times the sum, and the sum
      with tax; and nothing is stored exactly when one of them has more than its 12 or 2 digits
      before the point. */
  lemma StoredExactly(items: seq<LineItem>, taxRate: real, tax: real, m: Amounts)
    requires tax == Subtotal(items) * taxRate
    ensures Store(items, taxRate) == Some(m)
            <==> StoredAs(Subtotal(items), taxRate, tax, Subtotal(items) + tax, m)
  {
    TotalsExactly(items, taxRate, tax);
    StoredTotals(items, taxRate, Subtotal(items), tax, Subtotal(items) + tax, m);
  }

  lemma StoredTotals(items: seq<LineItem>, taxRate: real, subtotal: real, tax: real, total: real, m: Amounts)
    requires ComputeTotals(items, taxRate) == (subtotal, tax, total)
    ensures Store(items, taxRate) == Some(m) <==> StoredAs(subtotal, taxRate, tax, total, m)
  {
    ColumnsExactly(subtotal, taxRate, tax, total, m);
  }

  lemma HalfACent(x: real, n: int)
    requires Column14x2(x, n)
    ensures Near(n as real / 100.0, x, 0.005)
  {
  }

  lemma HalfAStep(x: real, n: int)
    requires Column6x4(x, n)
    ensures Near(n as real / 10000.0, x, 0.00005)
  {
  }

  /** So in currency: subtotal, tax and total are each within half a cent of what the items and the
      rate come to. */
  lemma StoredWithinHalfACent(items: seq<LineItem>, taxRate: real, tax: real)
    requires Store(items, taxRate).Some? && tax == Subtotal(items) * taxRate
    ensures var m := Store(items, taxRate).value;
            && Near(m.subtotal as real / 100.0, Subtotal(items), 0.005)
            && Near(m.taxAmount as real / 100.0, tax, 0.005)
            && Near(m.total as real / 100.0, Subtotal(items) + tax, 0.005)
            && Near(m.taxRate as real / 10000.0, taxRate, 0.00005)
  {
    var m := Store(items, taxRate).value;
    StoredExactly(items, taxRate, tax, m);
    HalfACent(Subtotal(items), m.subtotal);
    HalfACent(tax, m.taxAmount);
    HalfACent(Subtotal(items) + tax, m.total);
    HalfAStep(taxRate, m.taxRate);
  }

  function Abs(n: int): int { if n < 0 then -n else n }

  /** The stored total and the stored parts disagree by at most one cent. */
  predicate Balanced(m: Amounts) {
    Abs(m.total - (m.subtotal + m.taxAmount)) <= 1
  }

  /** Whatever the items and the rate. */
  lemma StoredWithinACent(items: seq<LineItem>, taxRate: real)
    requires Store(items, taxRate).Some?
    ensures Balanced(Store(items, taxRate).value)
  {
    var (s, t, g) := ComputeTotals(items, taxRate);
    var m := Store(items, taxRate).value;
    assert g * 100.0 == s * 100.0 + t * 100.0;
    var d := m.total - (m.subtotal + m.taxAmount);
    assert -1.5 <= d as real <= 1.5;
  }

  /** And a cent apart they can be: half a cent of goods at a tax rate of one. */
  lemma CentIsReached()
    ensures Store([LineItem(1.0, 0.005)], 1.0) == Some(Amounts(1, 10000, 1, 1))
  {
    var items := [LineItem(1.0, 0.005)];
    assert items[..0] == [];
    assert Subtotal(items) == 0.005;
    NearestIs(0.5, 1);
    NearestIs(1.0, 1);
    NearestIs(10000.0, 10000);
  }

  /** An update that leaves items and rate absent: the items are re-read exactly, the rate comes
      back from its column. */
  function Restore(items: seq<LineItem>, m: Amounts): Option<Amounts> {
    Store(items, Rate(m.taxRate))
  }

  lemma RateIsStoredExactly(r: int)
    ensures Nearest(Rate(r) * 10000.0) == r
  {
    assert Rate(r) * 10000.0 == r as real;
    NearestIs(r as real, r);
  }

  /** Such an update is idempotent. */
  lemma RestoreIdempotent(items: seq<LineItem>, taxRate: real)
    requires Store(items, taxRate).Some? && Restore(items, Store(items, taxRate).value).Some?
    ensures var once := Restore(items, Store(items, taxRate).value); Restore(items, once.value) == once
    ensures Restore(items, Store(items, taxRate).value).value.subtotal == Store(items, taxRate).value.subtotal
  {
    RateIsStoredExactly(Store(items, taxRate).value.taxRate);
  }

  /** It is the identity on money when the rate fits its column. */
  lemma RestoreIdentity(items: seq<LineItem>, r: int)
    requires Store(items, Rate(r)).Some?
    ensures Restore(items, Store(items, Rate(r)).value) == Store(items, Rate(r))
  {
    RateIsStoredExactly(r);
  }

  /** Otherwise it moves the total by at most 0.00005 of the subtotal before rounding, plus a cent. */
  lemma RestoreDrift(items: seq<LineItem>, taxRate: real, m: Amounts, again: Amounts)
    requires Store(items, taxRate) == Some(m) && Restore(items, m) == Some(again)
    ensures Near(again.total as real / 100.0, m.total as real / 100.0, 0.00005 * Size(Subtotal(items)) + 0.01)
  {
    var before, after := ComputeTotals(items, taxRate), ComputeTotals(items, Rate(m.taxRate));
    ColumnFields(before, taxRate);
    ColumnFields(after, Rate(m.taxRate));
    TotalsNear(items, taxRate, Rate(m.taxRate));
    RoundingBound(before.2, after.2, 0.00005 * Size(Subtotal(items)));
  }

  function Size(x: real): real { if x >= 0.0 then x else -x }

  predicate Near(a: real, b: real, bound: real) {
    -bound <= a - b <= bound
  }

  /** Totals of the same items at two rates that agree to 0.00005. */
  lemma TotalsNear(items: seq<LineItem>, q: real, r: real)
    requires Near(r, q, 0.00005)
    ensures Near(ComputeTotals(items, r).2, ComputeTotals(items, q).2, 0.00005 * Size(Subtotal(items)))
  {
    var s := Subtotal(items);
    assert ComputeTotals(items, r).2 - ComputeTotals(items, q).2 == s * (r - q);
    ProductBound(s, r - q);
  }

  lemma ColumnFields(totals: (real, real, real), taxRate: real)
    requires Columns(totals, taxRate).Some?
    ensures Columns(totals, taxRate).value.total == Nearest(totals.2 * 100.0)
    ensures Near(Rate(Columns(totals, taxRate).value.taxRate), taxRate, 0.00005)
  {
  }

  lemma RoundingBound(was: real, now: real, bound: real)
    requires Near(now, was, bound)
    ensures Near(Nearest(now * 100.0) as real / 100.0, Nearest(was * 100.0) as real / 100.0, bound + 0.01)
  {
  }

  lemma Nonnegative(a: real, b: real)
    requires a >= 0.0 && b >= 0.0
    ensures a * b >= 0.0
  {
  }

  lemma ProductBound(s: real, e: real)
    requires -0.00005 <= e <= 0.00005
    ensures Near(s * e, 0.0, 0.00005 * Size(s))
  {
    var size := Size(s);
    Nonnegative(size, 0.00005 - e);
    Nonnegative(size, 0.00005 + e);
    assert size * (0.00005 - e) == 0.00005 * size - size * e;
    assert size * (0.00005 + e) == 0.00005 * size + size * e;
  }

  /** Even, halves to even: the decimal library's `round`. */
  function HalfEven(x: real): int {
    var f := x.Floor;
    var rest := x - f as real;
    if rest < 0.5 || (rest == 0.5 && f % 2 == 0) then f else f + 1
  }

  /** The amount Stripe is asked for is the stored total to the cent, and fits a 64-bit integer. */
  lemma StripeCentsExact(items: seq<LineItem>, taxRate: real)
    requires Store(items, taxRate).Some?
    ensures var total := Store(items, taxRate).value.total;
            HalfEven((total as real / 100.0) * 100.0) == total
            && -0x8000_0000_0000_0000 <= total < 0x8000_0000_0000_0000
  {
    var total := Store(items, taxRate).value.total;
    assert (total as real / 100.0) * 100.0 == total as real;
  }
}
