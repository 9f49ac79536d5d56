/** Decimal printing of counters and minutes, with and without zero padding. */
module Digits {

  function Digit(n: nat): char
    requires n < 10
  {
    "0123456789"[n]
  }

  function Print(n: nat): string {
    if n < 10 then [Digit(n)] else Print(n / 10) + [Digit(n % 10)]
  }

  /** The format `{:04}`. */
  function Print4(n: nat): string {
    Zeros(4 - |Print(n)|) + Print(n)
  }

  function Zeros(k: int): string {
    if k <= 0 then "" else "0" + Zeros(k - 1)
  }

  predicate IsDigit(c: char) {
    '0' <= c <= '9'
  }

  function DigitValue(c: char): nat
    requires IsDigit(c)
  {
    c as int - '0' as int
  }

  ghost predicate AllDigits(s: string) {
    forall k | 0 <= k < |s| :: IsDigit(s[k])
  }

  /** Reading a string of digits back. */
  ghost function Read(s: string): nat
    requires AllDigits(s)
  {
    if s == "" then 0 else Read(s[..|s| - 1]) * 10 + DigitValue(s[|s| - 1])
  }

  lemma {:induction false} ReadPrint(n: nat)
    ensures AllDigits(Print(n)) && Read(Print(n)) == n
  {
    if n >= 10 {
      ReadPrint(n / 10);
      assert Print(n)[..|Print(n)| - 1] == Print(n / 10);
    } else {
      assert Print(n)[..0] == "";
    }
  }

  lemma {:induction false} ReadZeros(k: int, s: string)
    requires AllDigits(s)
    ensures AllDigits(Zeros(k) + s) && Read(Zeros(k) + s) == Read(s)
    decreases |s|, k
  {
    if s != "" {
      var n := |s| - 1;
      assert AllDigits(s[..n]);
      assert (Zeros(k) + s)[..|Zeros(k) + s| - 1] == Zeros(k) + s[..n];
      ReadZeros(k, s[..n]);
      assert forall i | 0 <= i < |Zeros(k)| :: (Zeros(k) + s[..n])[i] == Zeros(k)[i];
      assert forall i | 0 <= i < |s| :: (Zeros(k) + s)[|Zeros(k)| + i] == s[i];
    } else {
      OnlyZeros(k);
      assert Zeros(k) + s == Zeros(k);
    }
  }

  lemma {:induction false} OnlyZeros(k: int)
    ensures AllDigits(Zeros(k)) && Read(Zeros(k)) == 0
    ensures forall i | 0 <= i < |Zeros(k)| :: Zeros(k)[i] == '0'
    decreases k
  {
    if k > 0 {
      OnlyZeros(k - 1);
      ZerosRead(Zeros(k));
    }
  }

  lemma {:induction false} ZerosRead(s: string)
    requires forall i | 0 <= i < |s| :: s[i] == '0'
    ensures AllDigits(s) && Read(s) == 0
  {
    if s != "" { ZerosRead(s[..|s| - 1]); }
  }

  /** The printed number, padded or not, reads back; so printing is injective at any width. */
  lemma PrintedReadsBack(n: nat)
    ensures AllDigits(Print(n)) && Read(Print(n)) == n
    ensures AllDigits(Print4(n)) && Read(Print4(n)) == n
  {
    ReadPrint(n);
    ReadZeros(4 - |Print(n)|, Print(n));
  }

  function Power10(k: nat): (p: nat)
    ensures k >= 1 ==> p >= 10
  {
    if k == 0 then 1 else if k == 1 then 10 else 10 * Power10(k - 1)
  }

  lemma PrintNotEmpty(n: nat)
    ensures |Print(n)| >= 1
  {
  }

  lemma {:induction false} Width(n: nat, digits: nat)
    requires digits >= 1
    ensures |Print(n)| <= digits <==> n < Power10(digits)
    decreases digits
  {
    if n >= 10 {
      PrintNotEmpty(n / 10);
      if digits > 1 { Width(n / 10, digits - 1); }
    }
  }

  /** Padded numbers have four digits, and more only from ten thousand on. */
  lemma FourDigits(n: nat)
    ensures |Print4(n)| >= 4 && (|Print4(n)| == 4 <==> n < 10_000)
  {
    Width(n, 4);
    ZerosLength(4 - |Print(n)|);
  }

  lemma {:induction false} ZerosLength(k: int)
    ensures |Zeros(k)| == if k <= 0 then 0 else k
    decreases k
  {
    if k > 0 { ZerosLength(k - 1); }
  }

  lemma Print4Injective(m: nat, n: nat)
    requires Print4(m) == Print4(n)
    ensures m == n
  {
    PrintedReadsBack(m);
    PrintedReadsBack(n);
  }
}
