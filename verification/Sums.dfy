/** Sums over tables and logs. */
module Sums {

  function Sum<T>(s: seq<T>, f: T -> int): int {
    if s == [] then 0 else Sum(s[..|s| - 1], f) + f(s[|s| - 1])
  }

  lemma {:induction false} SumAppend<T>(s: seq<T>, t: seq<T>, f: T -> int)
    ensures Sum(s + t, f) == Sum(s, f) + Sum(t, f)
  {
    if t == [] {
      assert s + t == s;
    } else {
      assert (s + t)[..|s + t| - 1] == s + t[..|t| - 1];
      SumAppend(s, t[..|t| - 1], f);
    }
  }

  lemma SumPush<T>(s: seq<T>, x: T, f: T -> int)
    ensures Sum(s + [x], f) == Sum(s, f) + f(x)
  {
    assert (s + [x])[..|s|] == s;
  }

  lemma SumOne<T>(x: T, f: T -> int)
    ensures Sum([x], f) == f(x)
  {
    assert [x][..0] == [];
  }

  lemma {:induction false} SumUpdate<T>(s: seq<T>, k: nat, x: T, f: T -> int)
    requires k < |s|
    ensures Sum(s[k := x], f) == Sum(s, f) - f(s[k]) + f(x)
  {
    var n := |s| - 1;
    if k < n {
      assert s[k := x][..n] == s[..n][k := x];
      SumUpdate(s[..n], k, x, f);
    } else {
      assert s[k := x][..n] == s[..n];
    }
  }

  lemma {:induction false} SumEqual<T, U>(s: seq<T>, t: seq<U>, f: T -> int, g: U -> int)
    requires |s| == |t| && forall k | 0 <= k < |s| :: f(s[k]) == g(t[k])
    ensures Sum(s, f) == Sum(t, g)
  {
    if s != [] { SumEqual(s[..|s| - 1], t[..|t| - 1], f, g); }
  }

  lemma {:induction false} SumNonnegative<T>(s: seq<T>, f: T -> int)
    requires forall k | 0 <= k < |s| :: f(s[k]) >= 0
    ensures Sum(s, f) >= 0
    ensures forall k | 0 <= k < |s| :: f(s[k]) <= Sum(s, f)
  {
    if s != [] { SumNonnegative(s[..|s| - 1], f); }
  }

  /** A sum of terms that are each a multiple of the same amount. */
  lemma {:induction false} SumScaled<T>(s: seq<T>, f: T -> int, count: T -> int, amount: int)
    requires forall k | 0 <= k < |s| :: f(s[k]) == count(s[k]) * amount
    ensures Sum(s, f) == Sum(s, count) * amount
  {
    if s != [] {
      SumScaled(s[..|s| - 1], f, count, amount);
      assert Sum(s, count) * amount == Sum(s[..|s| - 1], count) * amount + count(s[|s| - 1]) * amount;
    }
  }
}
