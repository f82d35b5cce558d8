/** Facts about multiplication, division and powers of ten, each proved alone. */
module Arithmetic {
  lemma MulAssoc(a: int, b: int, c: int)
    ensures a * (b * c) == (a * b) * c
  {
  }

  lemma MulAtLeast(d: int, p: int)
    requires p > 0
    ensures d >= 1 ==> d * p >= p
    ensures d <= -1 ==> d * p <= -p
  {
    if d >= 1 {
      MulMono(1, d, p);
    } else if d <= -1 {
      MulMono(d, -1, p);
    }
  }

  lemma MulMono(a: int, b: int, p: int)
    requires a <= b && p > 0
    ensures a * p <= b * p
  {
    assert (b - a) * p >= 0;
  }

  lemma MulLess(a: int, b: int, p: int)
    requires a < b && p > 0
    ensures a * p < b * p
  {
    MulAtLeast(b - a, p);
    Distribute(b, a, p);
  }

  lemma FactorAtMost(c: nat, p: nat)
    requires p > 0
    ensures c <= c * p
  {
    MulMono(1, p, if c > 0 then c else 1);
  }

  lemma Distribute(a: int, b: int, p: int)
    ensures (a - b) * p == a * p - b * p
    ensures (a + b) * p == a * p + b * p
  {
  }

  lemma Negate(a: int, p: int)
    ensures (-a) * p == -(a * p)
  {
  }

  lemma DivMod(n: nat, p: nat)
    requires p > 0
    ensures n == n / p * p + n % p && 0 <= n % p < p
  {
  }

  lemma {:induction false} DividesOnce(k: int, q: int, r: int, p: int)
    requires 0 <= r < p
    ensures k * p == q * p + r <==> k == q && r == 0
  {
    Distribute(k, q, p);
    MulAtLeast(k - q, p);
  }

  lemma {:induction false} MultipleHasNoRemainder(q: nat, p: nat)
    requires p > 0
    ensures q * p % p == 0 && q * p / p == q
  {
    var n: nat := q * p;
    DivMod(n, p);
    DividesOnce(q, n / p, n % p, p);
  }

  lemma Cancel(x: int, y: int, p: int)
    requires p > 0
    ensures x * p == y * p <==> x == y
  {
    DividesOnce(x, y, 0, p);
  }

  function Pow10(n: nat): (p: nat)
    ensures p > 0
  {
    if n == 0 then 1 else 10 * Pow10(n - 1)
  }

  lemma {:induction false} Pow10Add(a: nat, b: nat)
    ensures Pow10(a + b) == Pow10(a) * Pow10(b)
  {
    if a > 0 {
      Pow10Add(a - 1, b);
      MulAssoc(10, Pow10(a - 1), Pow10(b));
    }
  }

  lemma {:induction false} Pow10Grows(a: nat, b: nat)
    requires a <= b
    ensures Pow10(a) <= Pow10(b) && (a < b ==> Pow10(a) < Pow10(b))
  {
    if a < b { Pow10Grows(a, b - 1); }
  }

  /** How many digits the number is written with. */
  function DigitCount(n: nat): (d: nat)
    ensures d > 0
  {
    if n < 10 then 1 else 1 + DigitCount(n / 10)
  }

  lemma {:induction false} DigitCountBounds(n: nat)
    ensures n < Pow10(DigitCount(n))
    ensures n > 0 ==> Pow10(DigitCount(n) - 1) <= n
  {
    if n >= 10 { DigitCountBounds(n / 10); }
  }

  lemma DigitCountAtMost(n: nat, d: nat)
    requires n < Pow10(d) && d > 0
    ensures DigitCount(n) <= d
  {
    DigitCountBounds(n);
    if n > 0 && DigitCount(n) > d {
      Pow10Grows(d, DigitCount(n) - 1);
    }
  }

  lemma DigitCountIs(n: nat, d: nat)
    requires Pow10(d) <= n < Pow10(d + 1)
    ensures DigitCount(n) == d + 1
  {
    DigitCountAtMost(n, d + 1);
    DigitCountBounds(n);
    if DigitCount(n) < d + 1 { Pow10Grows(DigitCount(n), d); }
  }
}
