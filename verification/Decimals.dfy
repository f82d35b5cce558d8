/**
Decimal arithmetic as the amount parser uses it: exact construction from text,
then one multiplication or division under the default context, which keeps 28
significant digits, rounds half to even and flushes below its smallest exponent.
*/
module Decimals {
  import opened Arithmetic
  import opened Wrappers

  /** A finite decimal is sign * coeff * 10^exp; infinities and NaNs carry nothing that matters here. */
  datatype Decimal = Finite(negative: bool, coeff: nat, exp: int) | Special

  const PRECISION := 28
  const EMAX := 999999
  const ETINY := -1000026
  const STROOP_DIGITS := 7

  // ---- Values ----

  function Signed(d: Decimal): int
    requires d.Finite?
  {
    if d.negative then 0 - d.coeff else d.coeff
  }

  /** How many units of 10^e the decimal is worth. */
  function Units(d: Decimal, e: int): int
    requires d.Finite? && e <= d.exp
  {
    Signed(d) * Pow10(d.exp - e)
  }

  predicate SameValue(a: Decimal, b: Decimal)
    requires a.Finite? && b.Finite?
  {
    var e := if a.exp < b.exp then a.exp else b.exp;
    Units(a, e) == Units(b, e)
  }

  function FromInt(k: int): (d: Decimal)
    ensures d.Finite? && d.exp == 0 && Units(d, 0) == k
  {
    Finite(k < 0, if k < 0 then -k else k, 0)
  }

  lemma UnitsRescale(d: Decimal, e: int, f: int)
    requires d.Finite? && f <= e <= d.exp
    ensures Units(d, f) == Units(d, e) * Pow10(e - f)
  {
    hide Pow10;
    Pow10Add(d.exp - e, e - f);
    MulAssoc(Signed(d), Pow10(d.exp - e), Pow10(e - f));
  }

  lemma {:induction false} SameValueAt(a: Decimal, b: Decimal, e: int)
    requires a.Finite? && b.Finite? && e <= a.exp && e <= b.exp
    ensures SameValue(a, b) <==> Units(a, e) == Units(b, e)
  {
    hide Units;
    var m := if a.exp < b.exp then a.exp else b.exp;
    UnitsRescale(a, m, e);
    UnitsRescale(b, m, e);
    Cancel(Units(a, m), Units(b, m), Pow10(m - e));
  }

  lemma SameValueTransitive(a: Decimal, b: Decimal, c: Decimal)
    requires a.Finite? && b.Finite? && c.Finite?
    ensures SameValue(a, b) == SameValue(b, a)
    ensures SameValue(a, b) ==> (SameValue(b, c) <==> SameValue(a, c))
  {
    hide Units;
    var ab := if a.exp < b.exp then a.exp else b.exp;
    var e := if ab < c.exp then ab else c.exp;
    SameValueAt(a, b, e);
    SameValueAt(b, c, e);
    SameValueAt(a, c, e);
  }

  // ---- Rounding ----

  function RoundHalfEven(n: nat, d: nat): nat
    requires d > 0
  {
    var q, r := n / d, n % d;
    if 2 * r < d || (2 * r == d && q % 2 == 0) then q else q + 1
  }

  function Max(a: int, b: int): int {
    if a < b then b else a
  }

  /** How many low digits the context cannot keep. */
  function Dropped(coeff: nat, exp: int): nat {
    Max(0, Max(DigitCount(coeff) - PRECISION, ETINY - exp))
  }

  /** The context's last act on every result: None is a trapped overflow. */
  function Finalize(negative: bool, coeff: nat, exp: int): Option<Decimal> {
    var drop := Dropped(coeff, exp);
    var c := RoundHalfEven(coeff, Pow10(drop));
    if c != 0 && exp + drop + DigitCount(c) - 1 > EMAX then None
    else if c == Pow10(PRECISION) then Some(Finite(negative, Pow10(PRECISION - 1), exp + drop + 1))
    else Some(Finite(negative, c, exp + drop))
  }

  lemma RoundingIsExactly(n: nat, d: nat)
    requires d > 0
    ensures RoundHalfEven(n, d) * d == n <==> n % d == 0
  {
    DivMod(n, d);
    Distribute(n / d, 1, d);
  }

  lemma {:induction false} RoundingFits(n: nat, drop: nat)
    requires DigitCount(n) <= PRECISION + drop
    ensures RoundHalfEven(n, Pow10(drop)) <= Pow10(PRECISION)
  {
    hide Pow10;
    DigitCountBounds(n);
    Pow10Grows(DigitCount(n), PRECISION + drop);
    Pow10Add(PRECISION, drop);
    DivMod(n, Pow10(drop));
    if n / Pow10(drop) >= Pow10(PRECISION) {
      MulMono(Pow10(PRECISION), n / Pow10(drop), Pow10(drop));
      assert false;
    }
  }

  lemma CarriedOver(negative: bool, exp: int)
    ensures SameValue(Finite(negative, Pow10(PRECISION - 1), exp + 1), Finite(negative, Pow10(PRECISION), exp))
  {
    hide Pow10;
    var a, b := Finite(negative, Pow10(PRECISION - 1), exp + 1), Finite(negative, Pow10(PRECISION), exp);
    Pow10Add(PRECISION - 1, 1);
    assert Pow10(0) == 1 && Pow10(1) == 10 by { FirstPowers(); }
    assert Units(a, exp) == Units(b, exp);
  }

  lemma FirstPowers()
    ensures Pow10(0) == 1 && Pow10(1) == 10
  {
  }

  lemma {:induction false} RoundedValue(negative: bool, coeff: nat, exp: int, drop: nat)
    ensures SameValue(Finite(negative, RoundHalfEven(coeff, Pow10(drop)), exp + drop), Finite(negative, coeff, exp))
       <==> coeff % Pow10(drop) == 0
  {
    hide RoundHalfEven, SameValue, Pow10;
    var c := RoundHalfEven(coeff, Pow10(drop));
    var a, b := Finite(negative, c, exp + drop), Finite(negative, coeff, exp);
    RoundingIsExactly(coeff, Pow10(drop));
    SameValueAt(a, b, exp);
    FirstPowers();
    assert Units(b, exp) == Signed(b);
    Negate(c, Pow10(drop));
    assert Units(a, exp) == Signed(a) * Pow10(drop);
  }

  /** Rounding changes the value exactly when a digit it drops is not zero, and keeps at most 28. */
  lemma FinalizeKeepsValue(negative: bool, coeff: nat, exp: int)
    requires Finalize(negative, coeff, exp).Some?
    ensures var p := Finalize(negative, coeff, exp).value;
            && p.Finite? && p.coeff < Pow10(PRECISION)
            && (SameValue(p, Finite(negative, coeff, exp)) <==> coeff % Pow10(Dropped(coeff, exp)) == 0)
  {
    hide Pow10, RoundHalfEven, SameValue, DigitCount;
    var drop := Dropped(coeff, exp);
    var c := RoundHalfEven(coeff, Pow10(drop));
    var p := Finalize(negative, coeff, exp).value;
    RoundingFits(coeff, drop);
    Pow10Grows(PRECISION - 1, PRECISION);
    RoundedValue(negative, coeff, exp, drop);
    if c == Pow10(PRECISION) {
      CarriedOver(negative, exp + drop);
      SameValueTransitive(p, Finite(negative, c, exp + drop), Finite(negative, coeff, exp));
    }
  }

  // ---- Integers ----

  predicate IsIntegral(d: Decimal)
    requires d.Finite?
  {
    d.exp >= 0 || d.coeff % Pow10(-d.exp) == 0
  }

  function Truncated(d: Decimal): int
    requires d.Finite?
  {
    (if d.negative then -1 else 1) * (if d.exp >= 0 then d.coeff * Pow10(d.exp) else d.coeff / Pow10(-d.exp))
  }

  lemma {:induction false} IntegralMeans(d: Decimal, k: int)
    requires d.Finite?
    ensures SameValue(FromInt(k), d) <==> IsIntegral(d) && Truncated(d) == k
  {
    if d.exp >= 0 {
      SameValueAt(FromInt(k), d, 0);
      Negate(d.coeff, Pow10(d.exp));
    } else {
      FractionMeans(d, k);
    }
  }

  lemma {:induction false} FractionMeans(d: Decimal, k: int)
    requires d.Finite? && d.exp < 0
    ensures SameValue(FromInt(k), d) <==> d.coeff % Pow10(-d.exp) == 0 && Truncated(d) == k
  {
    hide Pow10;
    var p := Pow10(-d.exp);
    FirstPowers();
    DivMod(d.coeff, p);
    assert Units(FromInt(k), d.exp) == k * p;
    assert Units(d, d.exp) == Signed(d);
    Negate(k, p);
    DividesOnce(if d.negative then -k else k, d.coeff / p, d.coeff % p, p);
  }

  // ---- Stroops ----

  /** `k` is exactly ten million times the decimal. */
  predicate WorthStroops(d: Decimal, k: int)
    requires d.Finite?
  {
    SameValue(FromInt(k), Finite(d.negative, d.coeff, d.exp + STROOP_DIGITS))
  }

  function StroopsOf(d: Decimal): Option<int> {
    match d
    case Special => None
    case Finite(negative, coeff, exp) =>
      match Finalize(negative, coeff * Pow10(STROOP_DIGITS), exp)
      case None => None
      case Some(p) => if IsIntegral(p) then Some(Truncated(p)) else None
  }

  /** The product neither overflows nor loses a digit that is not zero. */
  predicate Lossless(d: Decimal)
    requires d.Finite?
  {
    var scaled := d.coeff * Pow10(STROOP_DIGITS);
    Finalize(d.negative, scaled, d.exp).Some? && scaled % Pow10(Dropped(scaled, d.exp)) == 0
  }

  lemma ScalingIsShifting(d: Decimal)
    requires d.Finite?
    ensures SameValue(Finite(d.negative, d.coeff * Pow10(STROOP_DIGITS), d.exp),
                      Finite(d.negative, d.coeff, d.exp + STROOP_DIGITS))
  {
    var scaled := Finite(d.negative, d.coeff * Pow10(STROOP_DIGITS), d.exp);
    var shifted := Finite(d.negative, d.coeff, d.exp + STROOP_DIGITS);
    Negate(d.coeff, Pow10(STROOP_DIGITS));
    assert Units(scaled, d.exp) == Units(shifted, d.exp);
    SameValueAt(scaled, shifted, d.exp);
  }

  lemma ProductKeepsValue(d: Decimal, k: int)
    requires d.Finite? && Finalize(d.negative, d.coeff * Pow10(STROOP_DIGITS), d.exp).Some?
    ensures var p := Finalize(d.negative, d.coeff * Pow10(STROOP_DIGITS), d.exp).value;
            && p.Finite? && p.coeff < Pow10(PRECISION)
            && (Lossless(d) ==> (SameValue(FromInt(k), p) <==> WorthStroops(d, k)))
            && (SameValue(FromInt(k), p) && WorthStroops(d, k) ==> Lossless(d))
  {
    hide SameValue, Finalize, Pow10, Dropped;
    var scaled := Finite(d.negative, d.coeff * Pow10(STROOP_DIGITS), d.exp);
    var shifted := Finite(d.negative, d.coeff, d.exp + STROOP_DIGITS);
    var p := Finalize(d.negative, scaled.coeff, d.exp).value;
    FinalizeKeepsValue(d.negative, scaled.coeff, d.exp);
    ScalingIsShifting(d);
    SameValueTransitive(p, scaled, shifted);
    SameValueTransitive(p, shifted, scaled);
    SameValueTransitive(shifted, scaled, p);
    SameValueTransitive(p, shifted, FromInt(k));
    SameValueTransitive(FromInt(k), shifted, p);
    SameValueTransitive(p, FromInt(k), shifted);
  }

  /**
  The conversion answers the exact number of stroops if and only if the 28-digit
  product loses nothing; and a decimal that is no whole number of stroops is
  refused whenever it loses nothing.
  */
  lemma {:induction false} StroopsExactly(d: Decimal, k: int)
    requires d.Finite?
    ensures WorthStroops(d, k) ==> (StroopsOf(d) == Some(k) <==> Lossless(d))
    ensures Lossless(d) ==> (StroopsOf(d) == Some(k) <==> WorthStroops(d, k))
  {
    if Finalize(d.negative, d.coeff * Pow10(STROOP_DIGITS), d.exp).Some? {
      ProductKeepsValue(d, k);
      IntegralMeans(Finalize(d.negative, d.coeff * Pow10(STROOP_DIGITS), d.exp).value, k);
    }
  }

  /** A number of at most 28 digits and `z` zeros after them loses nothing to a context that may drop `z` digits. */
  lemma {:induction false} ZerosAreFree(c: nat, z: nat, exp: int)
    requires c < Pow10(PRECISION) && ETINY <= exp
    ensures Dropped(c * Pow10(z), exp) <= z
    ensures c * Pow10(z) % Pow10(Dropped(c * Pow10(z), exp)) == 0
  {
    hide Pow10, DigitCount;
    var n := c * Pow10(z);
    Pow10Add(PRECISION, z);
    MulMono(c + 1, Pow10(PRECISION), Pow10(z));
    Distribute(c, 1, Pow10(z));
    DigitCountAtMost(n, PRECISION + z);
    var drop := Dropped(n, exp);
    Pow10Add(z - drop, drop);
    MulAssoc(c, Pow10(z - drop), Pow10(drop));
    MultipleHasNoRemainder(c * Pow10(z - drop), Pow10(drop));
  }

  /** Up to 28 digits, at any exponent an amount could sensibly have, nothing is ever lost. */
  lemma FitsIsLossless(d: Decimal)
    requires d.Finite? && d.coeff < Pow10(PRECISION) && ETINY <= d.exp <= EMAX - PRECISION - STROOP_DIGITS
    ensures Lossless(d)
  {
    hide Pow10, DigitCount, RoundHalfEven;
    ZerosAreFree(d.coeff, STROOP_DIGITS, d.exp);
    var scaled := d.coeff * Pow10(STROOP_DIGITS);
    var drop := Dropped(scaled, d.exp);
    RoundingFits(scaled, drop);
    Pow10Grows(PRECISION, PRECISION + 1);
    DigitCountAtMost(RoundHalfEven(scaled, Pow10(drop)), PRECISION + 1);
  }

  // ---- Back from stroops ----

  /** An amount as the cross-check sees it: the stroops divided by ten million under the same context. */
  function TargetOf(k: int): Option<Decimal> {
    Finalize(k < 0, Magnitude(k), -STROOP_DIGITS)
  }

  function Magnitude(k: int): nat {
    if k < 0 then -k else k
  }

  /** Dividing these stroops by ten million loses nothing. */
  predicate TargetIsExact(k: int) {
    TargetOf(k).Some? && Magnitude(k) % Pow10(Dropped(Magnitude(k), -STROOP_DIGITS)) == 0
  }

  lemma ShiftBoth(a: Decimal, b: Decimal)
    requires a.Finite? && b.Finite?
    ensures SameValue(a, b) <==> SameValue(a.(exp := a.exp + STROOP_DIGITS), b.(exp := b.exp + STROOP_DIGITS))
  {
  }

  /** A number in the text equals the target exactly when it is worth these stroops, provided the division is exact. */
  lemma {:induction false} TargetMeans(k: int, t: Decimal)
    requires t.Finite? && TargetIsExact(k)
    ensures TargetOf(k).value.Finite? && (SameValue(TargetOf(k).value, t) <==> WorthStroops(t, k))
  {
    hide SameValue, Pow10, Dropped, Finalize;
    var p, q := TargetOf(k).value, Finite(k < 0, Magnitude(k), -STROOP_DIGITS);
    FinalizeKeepsValue(k < 0, Magnitude(k), -STROOP_DIGITS);
    SameValueTransitive(p, q, t);
    SameValueTransitive(q, p, t);
    ShiftBoth(q, t);
    assert q.(exp := 0) == FromInt(k);
  }

  lemma FinalizeFits(negative: bool, coeff: nat, exp: int)
    requires Finalize(negative, coeff, exp).Some?
    ensures var p := Finalize(negative, coeff, exp).value;
            p.Finite? && (p.coeff != 0 ==> p.exp + DigitCount(p.coeff) - 1 <= EMAX)
  {
    hide Pow10, DigitCount, RoundHalfEven, Dropped;
    Pow10Grows(PRECISION - 1, PRECISION);
    Pow10Grows(PRECISION, PRECISION + 1);
    DigitCountIs(Pow10(PRECISION - 1), PRECISION - 1);
    DigitCountIs(Pow10(PRECISION), PRECISION);
  }

  /** However many zeros follow 28 digits, division by ten million is exact. */
  lemma {:induction false} RoundNumbersDivide(k: int, c: nat, z: nat)
    requires c < Pow10(PRECISION) && Magnitude(k) == c * Pow10(z)
    requires c != 0 ==> z + DigitCount(c) - 1 <= EMAX
    ensures TargetIsExact(k)
  {
    hide Pow10, DigitCount, RoundHalfEven;
    ZerosAreFree(c, z, -STROOP_DIGITS);
    var n := Magnitude(k);
    var drop := Dropped(n, -STROOP_DIGITS);
    var q := RoundHalfEven(n, Pow10(drop));
    RoundingIsExactly(n, Pow10(drop));
    if c == 0 {
      assert n == 0;
      if q != 0 { MulAtLeast(q, Pow10(drop)); }
    } else {
      DigitCountBounds(c);
      Pow10Add(DigitCount(c), z);
      MulLess(c, Pow10(DigitCount(c)), Pow10(z));
      var room := DigitCount(c) + z - drop;
      Pow10Add(room, drop);
      if q >= Pow10(room) { MulMono(Pow10(room), q, Pow10(drop)); assert false; }
      if room > 0 {
        DigitCountAtMost(q, room);
      }
    }
  }

  lemma IntegerHasUnits(k: int, p: Decimal)
    requires p.Finite? && p.exp >= 0 && SameValue(FromInt(k), p)
    ensures Magnitude(k) == p.coeff * Pow10(p.exp)
  {
    SameValueAt(FromInt(k), p, 0);
    Negate(p.coeff, Pow10(p.exp));
  }

  lemma FractionHasUnits(k: int, p: Decimal)
    requires p.Finite? && p.exp < 0 && SameValue(FromInt(k), p)
    ensures Magnitude(k) <= p.coeff
  {
    hide Pow10;
    SameValueAt(FromInt(k), p, p.exp);
    FirstPowers();
    Negate(k, Pow10(-p.exp));
    MulMono(1, Pow10(-p.exp), Magnitude(k) + 1);
  }

  /** Whatever was parsed, the amount it gave divides back without loss. */
  lemma {:induction false} ParsedAmountsDivide(d: Decimal, k: int)
    requires StroopsOf(d) == Some(k)
    ensures TargetIsExact(k)
  {
    hide Pow10, DigitCount, SameValue, Finalize;
    var p := Finalize(d.negative, d.coeff * Pow10(STROOP_DIGITS), d.exp).value;
    FinalizeKeepsValue(d.negative, d.coeff * Pow10(STROOP_DIGITS), d.exp);
    FinalizeFits(d.negative, d.coeff * Pow10(STROOP_DIGITS), d.exp);
    IntegralMeans(p, k);
    FirstPowers();
    if p.exp >= 0 {
      IntegerHasUnits(k, p);
      RoundNumbersDivide(k, p.coeff, p.exp);
    } else {
      FractionHasUnits(k, p);
      DigitCountAtMost(Magnitude(k), PRECISION);
      RoundNumbersDivide(k, Magnitude(k), 0);
    }
  }

  // ---- Where the conversion is not exact ----

  lemma PowersOfTen()
    ensures Pow10(7) == 10000000 && Pow10(8) == 100000000
    ensures Pow10(27) == 1000000000000000000000000000 && Pow10(28) == 10 * Pow10(27)
    ensures Pow10(35) == Pow10(28) * Pow10(7) && Pow10(36) == 10 * Pow10(35)
  {
    Pow10Add(7, 7);
    Pow10Add(14, 7);
    Pow10Add(21, 6);
    Pow10Add(28, 7);
  }

  /** Twenty-nine digits that do not end in zero: the last stroop is lost without a word. */
  lemma LongAmountIsAltered()
    ensures var k := Pow10(PRECISION) + 1;
            var d := Finite(false, k, -STROOP_DIGITS);
            WorthStroops(d, k) && StroopsOf(d) == Some(k - 1)
  {
    PowersOfTen();
    hide Pow10, DigitCount;
    var k := Pow10(PRECISION) + 1;
    var scaled := k * Pow10(STROOP_DIGITS);
    DigitCountIs(scaled, 35);
    assert Dropped(scaled, -7) == 8;
    assert RoundHalfEven(scaled, Pow10(8)) == Pow10(27);
    DigitCountIs(Pow10(27), 27);
    assert Finalize(false, scaled, -7) == Some(Finite(false, Pow10(27), 1));
    FirstPowers();
  }

  /** An amount below the smallest exponent, such as 1E-2000000, is not refused: it is read as zero. */
  lemma TinyAmountBecomesZero(d: Decimal)
    requires d.Finite? && d.coeff > 0 && DigitCount(d.coeff * Pow10(STROOP_DIGITS)) + d.exp < ETINY
    ensures StroopsOf(d) == Some(0) && !WorthStroops(d, 0)
  {
    hide Pow10, DigitCount, RoundHalfEven, SameValue;
    var n := d.coeff * Pow10(STROOP_DIGITS);
    FactorAtMost(d.coeff, Pow10(STROOP_DIGITS));
    RoundsAway(n, Dropped(n, d.exp));
    assert Finalize(d.negative, n, d.exp) == Some(Finite(d.negative, 0, ETINY));
    MultipleHasNoRemainder(0, Pow10(-ETINY));
    NotWorthNothing(d);
  }

  lemma NotWorthNothing(d: Decimal)
    requires d.Finite? && d.coeff > 0 && d.exp + STROOP_DIGITS < 0
    ensures !WorthStroops(d, 0)
  {
    hide Pow10;
    FirstPowers();
    SameValueAt(FromInt(0), Finite(d.negative, d.coeff, d.exp + STROOP_DIGITS), d.exp + STROOP_DIGITS);
  }

  lemma {:induction false} RoundsAway(n: nat, drop: nat)
    requires DigitCount(n) < drop
    ensures RoundHalfEven(n, Pow10(drop)) == 0
  {
    hide Pow10, DigitCount;
    DigitCountBounds(n);
    Pow10Grows(DigitCount(n) + 1, drop);
    Pow10Add(1, DigitCount(n));
    FirstPowers();
    QuotientOfLess(n, Pow10(drop));
  }

  lemma QuotientOfLess(n: nat, p: nat)
    requires 2 * n < p
    ensures n / p == 0 && n % p == n
  {
    DivMod(n, p);
    DividesOnce(n / p, 0, n, p);
    if n / p >= 1 { MulMono(1, n / p, p); }
  }

  // ---- The context's limits ----

  /** Rounding goes to the nearest, and from the middle to the even one. */
  lemma RoundsToNearest(n: nat, d: nat)
    requires d > 0
    ensures var q := RoundHalfEven(n, d);
            && 0 - d <= 2 * (n - q * d) <= d
            && (2 * (n - q * d) == d || 2 * (n - q * d) == 0 - d ==> q % 2 == 0)
  {
    DivMod(n, d);
    Distribute(n / d, 1, d);
  }

  /** A power of ten is converted up to the greatest exponent and refused beyond it. */
  lemma HugeIsRefused(negative: bool, exp: nat)
    ensures StroopsOf(Finite(negative, 1, exp)).Some? <==> exp + STROOP_DIGITS <= 999999
  {
    hide Pow10, DigitCount, RoundHalfEven;
    PowersOfTen();
    FirstPowers();
    DigitCountIs(Pow10(7), 7);
    RoundingIsExactly(Pow10(7), 1);
    Pow10Grows(7, 28);
  }

  /** Below one stroop a power of ten is refused, down to the smallest exponent; beyond that it is read as zero. */
  lemma TinyIsZeroExactly(exp: int)
    requires exp < -STROOP_DIGITS
    ensures StroopsOf(Finite(false, 1, exp)) == (if exp <= -1000034 then Some(0) else None)
  {
    hide Pow10, DigitCount, RoundHalfEven, WorthStroops, Lossless;
    var d := Finite(false, 1, exp);
    PowersOfTen();
    DigitCountIs(Pow10(7), 7);
    var drop := Dropped(Pow10(7), exp);
    if exp <= -1000034 {
      Pow10Grows(8, drop);
      QuotientOfLess(Pow10(7), Pow10(drop));
      assert RoundHalfEven(Pow10(7), Pow10(drop)) == 0 by { NothingLeft(Pow10(7), Pow10(drop)); }
      MultipleHasNoRemainder(0, Pow10(-ETINY));
    } else {
      TinyIsLossless(exp);
      if StroopsOf(d).Some? {
        StroopsExactly(d, StroopsOf(d).value);
        NotWhole(exp, StroopsOf(d).value);
      }
    }
  }

  lemma NothingLeft(n: nat, p: nat)
    requires 2 * n < p
    ensures RoundHalfEven(n, p) == 0
  {
    QuotientOfLess(n, p);
  }

  lemma TinyIsLossless(exp: int)
    requires -1000034 < exp < -STROOP_DIGITS
    ensures Lossless(Finite(false, 1, exp))
  {
    hide Pow10, DigitCount, RoundHalfEven;
    PowersOfTen();
    DigitCountIs(Pow10(7), 7);
    var drop := Dropped(Pow10(7), exp);
    Pow10Add(7 - drop, drop);
    MultipleHasNoRemainder(Pow10(7 - drop), Pow10(drop));
    RoundingFits(Pow10(7), drop);
    Pow10Grows(PRECISION, PRECISION + 1);
    DigitCountAtMost(RoundHalfEven(Pow10(7), Pow10(drop)), PRECISION + 1);
  }

  /** Less than one stroop is no whole number of stroops. */
  lemma NotWhole(exp: int, k: int)
    requires exp < -STROOP_DIGITS
    ensures !WorthStroops(Finite(false, 1, exp), k)
  {
    hide Pow10;
    var shifted := Finite(false, 1, exp + STROOP_DIGITS);
    FirstPowers();
    SameValueAt(FromInt(k), shifted, exp + STROOP_DIGITS);
    UnitsRescale(FromInt(k), 0, exp + STROOP_DIGITS);
    Pow10Grows(1, -(exp + STROOP_DIGITS));
    if k >= 1 { MulMono(1, k, Pow10(-(exp + STROOP_DIGITS))); }
    if k < 0 { MulMono(k, -1, Pow10(-(exp + STROOP_DIGITS))); }
  }
}
