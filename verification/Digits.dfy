/** Positional notation: big-endian digits in any base. */
module Digits {
  function Pow(b: nat, e: nat): nat { if e == 0 then 1 else b * Pow(b, e - 1) }

  function Value(b: nat, ds: seq<nat>): nat {
    if ds == [] then 0 else Value(b, ds[..|ds| - 1]) * b + ds[|ds| - 1]
  }

  /** The digits of `v` without leading zeros; zero has none. */
  function DigitsOf(b: nat, v: nat): seq<nat>
    requires b >= 2
    decreases v
  {
    if v == 0 then [] else SmallerQuotient(b, v); DigitsOf(b, v / b) + [v % b]
  }

  predicate AreDigits(b: nat, ds: seq<nat>) { forall i | 0 <= i < |ds| :: ds[i] < b }

  predicate Canonical(ds: seq<nat>) { ds != [] ==> ds[0] != 0 }

  function Zeros(n: nat): seq<nat> { seq(n, _ => 0) }

  function LeadingZeros(ds: seq<nat>): (n: nat)
    ensures n <= |ds| && (forall i | 0 <= i < n :: ds[i] == 0) && (n < |ds| ==> ds[n] != 0)
  {
    if ds == [] || ds[0] != 0 then 0 else 1 + LeadingZeros(ds[1..])
  }

  lemma SmallerQuotient(b: nat, v: nat)
    requires b >= 2 && v > 0
    ensures v / b < v
  {
  }

  lemma {:induction false} PowAdd(b: nat, x: nat, y: nat)
    ensures Pow(b, x + y) == Pow(b, x) * Pow(b, y)
  {
    if x > 0 {
      PowAdd(b, x - 1, y);
      MulAssoc(b, Pow(b, x - 1), Pow(b, y));
    }
  }

  lemma MulAssoc(x: int, y: int, z: int)
    ensures x * (y * z) == (x * y) * z
  {
  }

  lemma {:induction false} PowPositive(b: nat, e: nat)
    requires b >= 1
    ensures Pow(b, e) >= 1
  {
    if e > 0 {
      PowPositive(b, e - 1);
      MulMono(1, b, 1, Pow(b, e - 1));
    }
  }

  lemma MulMono(a: nat, b: nat, x: nat, y: nat)
    requires a <= b && x <= y
    ensures a * x <= b * y
  {
    MulLeft(a, x, y);
    MulRight(a, b, y);
  }

  lemma MulLeft(a: nat, x: nat, y: nat)
    requires x <= y
    ensures a * x <= a * y
  {
  }

  lemma MulRight(a: nat, b: nat, y: nat)
    requires a <= b
    ensures a * y <= b * y
  {
  }

  lemma {:induction false} PowMono(b: nat, x: nat, y: nat)
    requires b >= 1 && x <= y
    ensures Pow(b, x) <= Pow(b, y)
  {
    PowAdd(b, x, y - x);
    PowPositive(b, y - x);
    MulLeft(Pow(b, x), 1, Pow(b, y - x));
  }

  // ---- Value and digits are inverse ----------------------------------------------------------

  lemma DivMod(v: nat, b: nat)
    requires b >= 1
    ensures (v / b) * b + v % b == v && v % b < b
    ensures v > 0 && v / b == 0 ==> v % b != 0
  {
  }

  /** One digit more: the quotient's digits, then the rest. */
  lemma LastDigit(b: nat, v: nat)
    requires b >= 2 && v > 0
    ensures DigitsOf(b, v) == DigitsOf(b, v / b) + [v % b] && v / b < v
  {
    SmallerQuotient(b, v);
  }

  lemma {:induction false} ValueOfDigits(b: nat, v: nat)
    requires b >= 2
    ensures Value(b, DigitsOf(b, v)) == v
    ensures AreDigits(b, DigitsOf(b, v)) && Canonical(DigitsOf(b, v))
    decreases v
  {
    if v > 0 {
      LastDigit(b, v);
      DivMod(v, b);
      NoDigitsMeansZero(b, v / b);
      hide DigitsOf;
      var q, r := v / b, v % b;
      ValueOfDigits(b, q);
      var before := DigitsOf(b, q);
      assert (before + [r])[..|before|] == before;
    }
  }

  lemma NoDigitsMeansZero(b: nat, v: nat)
    requires b >= 2
    ensures DigitsOf(b, v) == [] <==> v == 0
  {
  }

  lemma QuotientAndRest(b: nat, q: nat, r: nat)
    requires r < b
    ensures (q * b + r) / b == q && (q * b + r) % b == r
  {
    var v := q * b + r;
    var k, m := v / b, v % b;
    assert k * b + m == q * b + r;
    if k < q { MulRight(k + 1, q, b); }
    if k > q { MulRight(q + 1, k, b); }
  }

  lemma QuotientBelow(v: nat, b: nat, n: nat)
    requires b >= 1 && v < n * b
    ensures v / b < n
  {
    DivMod(v, b);
    if v / b >= n { MulRight(n, v / b, b); }
  }

  /** Rounding down to a multiple keeps at least one whole one. */
  lemma WholeMultiples(n: nat, d: nat)
    requires 0 < d <= n
    ensures d <= n - n % d <= n && (n - n % d) % d == 0
  {
    var q := n / d;
    DivMod(n, d);
    QuotientAndRest(d, q, 0);
    if q >= 1 { MulRight(1, q, d); }
  }

  lemma {:induction false} ValueIsPositive(b: nat, ds: seq<nat>)
    requires b >= 2 && ds != [] && ds[0] != 0
    ensures Value(b, ds) >= Pow(b, |ds| - 1) && Pow(b, |ds| - 1) >= 1
  {
    var rest := ds[..|ds| - 1];
    PowPositive(b, |ds| - 1);
    if rest == [] {
      assert Value(b, rest) == 0;
    } else {
      ValueIsPositive(b, rest);
      MulRight(Pow(b, |rest| - 1), Value(b, rest), b);
      assert Pow(b, |ds| - 1) == b * Pow(b, |rest| - 1);
    }
  }

  lemma {:induction false} DigitsOfValue(b: nat, ds: seq<nat>)
    requires b >= 2 && AreDigits(b, ds) && Canonical(ds)
    ensures DigitsOf(b, Value(b, ds)) == ds
  {
    if ds != [] {
      var rest, last := ds[..|ds| - 1], ds[|ds| - 1];
      assert AreDigits(b, rest);
      DigitsOfValue(b, rest);
      QuotientAndRest(b, Value(b, rest), last);
      ValueIsPositive(b, ds);
      assert ds == rest + [last];
    }
  }

  lemma {:induction false} ValueBelow(b: nat, ds: seq<nat>)
    requires b >= 2 && AreDigits(b, ds)
    ensures Value(b, ds) < Pow(b, |ds|)
  {
    if ds != [] {
      var rest := ds[..|ds| - 1];
      ValueBelow(b, rest);
      OneDigitMore(b, Value(b, rest), ds[|ds| - 1], Pow(b, |rest|));
    }
  }

  lemma OneDigitMore(b: nat, v: nat, d: nat, p: nat)
    requires d < b && v < p
    ensures v * b + d < b * p
  {
    MulRight(v + 1, p, b);
    assert (v + 1) * b == v * b + b;
    assert p * b == b * p;
  }

  lemma {:induction false} ValueConcat(b: nat, x: seq<nat>, y: seq<nat>)
    ensures Value(b, x + y) == Value(b, x) * Pow(b, |y|) + Value(b, y)
    decreases |y|
  {
    if y == [] {
      assert x + y == x;
    } else {
      var n := |y| - 1;
      assert (x + y)[..|x| + n] == x + y[..n];
      ValueConcat(b, x, y[..n]);
      Distribute(Value(b, x), Pow(b, n), Value(b, y[..n]), b);
    }
  }

  lemma Distribute(v: nat, p: nat, w: nat, b: nat)
    ensures (v * p + w) * b == v * (b * p) + w * b
  {
    MulAssoc(v, p, b);
    assert p * b == b * p;
  }

  lemma {:induction false} ValueOfZeros(b: nat, n: nat)
    ensures Value(b, Zeros(n)) == 0
  {
    if n > 0 {
      assert Zeros(n)[..n - 1] == Zeros(n - 1);
      ValueOfZeros(b, n - 1);
    }
  }

  lemma ValueIgnoresLeadingZeros(b: nat, n: nat, ds: seq<nat>)
    ensures Value(b, Zeros(n) + ds) == Value(b, ds)
  {
    ValueConcat(b, Zeros(n), ds);
    ValueOfZeros(b, n);
  }

  /** Any digits are their leading zeros followed by the canonical digits of their value. */
  lemma SplitLeadingZeros(b: nat, ds: seq<nat>)
    requires b >= 2 && AreDigits(b, ds)
    ensures ds == Zeros(LeadingZeros(ds)) + DigitsOf(b, Value(b, ds))
  {
    var n := LeadingZeros(ds);
    var rest := ds[n..];
    assert ds == Zeros(n) + rest;
    ValueIgnoresLeadingZeros(b, n, rest);
    DigitsOfValue(b, rest);
  }

  lemma {:induction false} LeadingZerosOf(n: nat, ds: seq<nat>)
    requires Canonical(ds)
    ensures LeadingZeros(Zeros(n) + ds) == n
  {
    if n == 0 {
      assert Zeros(0) + ds == ds;
    } else {
      assert (Zeros(n) + ds)[1..] == Zeros(n - 1) + ds;
      LeadingZerosOf(n - 1, ds);
    }
  }

  /** The number of digits is fixed by the powers around the value. */
  lemma LengthFromBounds(b: nat, v: nat, n: nat)
    requires b >= 2 && n >= 1 && Pow(b, n - 1) <= v < Pow(b, n)
    ensures |DigitsOf(b, v)| == n
  {
    var ds := DigitsOf(b, v);
    PowPositive(b, n - 1);
    ValueOfDigits(b, v);
    ValueBelow(b, ds);
    if |ds| < n { PowMono(b, |ds|, n - 1); }
    if |ds| > n {
      ValueIsPositive(b, ds);
      PowMono(b, n, |ds| - 1);
    }
  }

  /** Big-endian numbers of equal length compare like their digits. */
  lemma {:induction false} FixedLengthInjective(b: nat, x: seq<nat>, y: seq<nat>)
    requires b >= 2 && AreDigits(b, x) && AreDigits(b, y) && |x| == |y|
    requires Value(b, x) == Value(b, y)
    ensures x == y
  {
    if x != [] {
      var n := |x| - 1;
      QuotientAndRest(b, Value(b, x[..n]), x[n]);
      QuotientAndRest(b, Value(b, y[..n]), y[n]);
      FixedLengthInjective(b, x[..n], y[..n]);
      assert x == x[..n] + [x[n]] && y == y[..n] + [y[n]];
    }
  }

  /** `v` in exactly `n` digits. */
  function Padded(b: nat, v: nat, n: nat): (ds: seq<nat>)
    requires b >= 2 && v < Pow(b, n)
    ensures |ds| == n && AreDigits(b, ds) && Value(b, ds) == v
  {
    var ds := DigitsOf(b, v);
    ValueOfDigits(b, v);
    ShortEnough(b, v, n);
    ValueIgnoresLeadingZeros(b, n - |ds|, ds);
    Zeros(n - |ds|) + ds
  }

  lemma ShortEnough(b: nat, v: nat, n: nat)
    requires b >= 2 && v < Pow(b, n)
    ensures |DigitsOf(b, v)| <= n
  {
    var ds := DigitsOf(b, v);
    ValueOfDigits(b, v);
    if |ds| > n {
      ValueIsPositive(b, ds);
      PowMono(b, n, |ds| - 1);
    }
  }
}
