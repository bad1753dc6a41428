/** Python's decimal.Decimal arithmetic under the default context, as far as the
    model's DecimalField formulas use it: a finite value is a signed coefficient
    times a power of ten, and every arithmetic result is computed exactly and then
    rounded to 28 significant digits with ROUND_HALF_EVEN. */
module PyDecimal {

  /** A finite decimal: coeff × 10^exp (the sign is carried by the coefficient). */
  datatype Dec = Dec(coeff: int, exp: int)

  /** decimal.DefaultContext.prec */
  const Precision: nat := 28

  function Abs(n: int): nat { if n < 0 then -n else n }

  function Sign(n: int): int { if n < 0 then -1 else if n == 0 then 0 else 1 }

  function Pow10(k: nat): (r: nat)
    ensures r >= 1
  {
    if k == 0 then 1 else 10 * Pow10(k - 1)
  }

  lemma {:induction false} Pow10Add(a: nat, b: nat)
    ensures Pow10(a + b) == Pow10(a) * Pow10(b)
  {
    if b > 0 {
      Pow10Add(a, b - 1);
      assert Pow10(a + b) == 10 * Pow10(a + b - 1);
    }
  }

  lemma {:induction false} Pow10Monotone(a: nat, b: nat)
    requires a <= b
    ensures Pow10(a) <= Pow10(b)
  {
    if a < b {
      Pow10Monotone(a, b - 1);
    }
  }

  /** The length of the coefficient's digit string (len(str(n))): 0 has one digit. */
  function Digits(n: nat): (d: nat)
    ensures 1 <= d
    ensures n < Pow10(d)
    ensures d > 1 ==> Pow10(d - 1) <= n
  {
    if n < 10 then 1 else 1 + Digits(n / 10)
  }

  /** A number has at most Precision digits exactly when it is below 10^Precision. */
  lemma DigitsWithinPrecision(n: nat)
    ensures Digits(n) <= Precision <==> n < Pow10(Precision)
  {
    var d := Digits(n);
    if d <= Precision {
      Pow10Monotone(d, Precision);
    } else {
      Pow10Monotone(Precision, d - 1);
    }
  }

  /** n / p rounded to the nearest integer, ties to the even neighbour. */
  function RoundDiv(n: nat, p: nat): nat
    requires p > 0
  {
    DivFacts(n, p);
    var q := n / p;
    var r := n % p;
    if 2 * r > p || (2 * r == p && q % 2 == 1) then q + 1 else q
  }

  lemma DivFacts(n: nat, p: nat)
    requires p > 0
    ensures 0 <= n / p && n == (n / p) * p + n % p && 0 <= n % p < p
  {
  }

  /** n / 10^k rounded half-even: the magnitude part of ROUND_HALF_EVEN when the
      last k digits are dropped. */
  function RoundHalfEven(n: nat, k: nat): nat
  {
    RoundDiv(n, Pow10(k))
  }

  /** Rounding is within half a unit of the last kept digit. */
  lemma RoundDivError(n: nat, p: nat)
    requires p > 0
    ensures 2 * Abs(RoundDiv(n, p) * p - n) <= p
  {
    DivFacts(n, p);
    var q := n / p;
    assert (q + 1) * p == q * p + p;
  }

  /** A number of at least p does not round to zero, and one below b * p does not
      round above b. */
  lemma RoundDivBounds(n: nat, p: nat, b: nat)
    requires p > 0 && p <= n < b * p
    ensures 1 <= RoundDiv(n, p) <= b
  {
    DivFacts(n, p);
    var q := n / p;
    assert q * p <= n < b * p;
  }

  lemma RoundHalfEvenBounds(n: nat, k: nat, d: nat)
    requires d == Digits(n) && 0 < k < d
    ensures 1 <= RoundHalfEven(n, k) <= Pow10(d - k)
  {
    var p, b := Pow10(k), Pow10(d - k);
    Pow10Add(k, d - k);
    assert n < b * p;
    Pow10Monotone(k, d - 1);
    assert p <= n;
    RoundDivBounds(n, p, b);
  }

  /** The precision step of Context._fix: a coefficient longer than Precision
      digits is rounded half-even to Precision digits and the exponent raised by
      the number of digits dropped; a carry that makes Precision + 1 digits drops
      one digit more. Exponent limits (Emin, Emax) are not modelled. */
  function Fix(d: Dec): (r: Dec)
    ensures r.exp >= d.exp
  {
    var m := Abs(d.coeff);
    var n := Digits(m);
    if n <= Precision then d
    else
      var k := n - Precision;
      var q := RoundHalfEven(m, k);
      if q == Pow10(Precision) then Dec(Sign(d.coeff) * Pow10(Precision - 1), d.exp + k + 1)
      else Dec(Sign(d.coeff) * q, d.exp + k)
  }

  /** A result that already fits the precision is returned unchanged. */
  lemma FixExact(d: Dec)
    ensures Abs(d.coeff) < Pow10(Precision) ==> Fix(d) == d
  {
    DigitsWithinPrecision(Abs(d.coeff));
  }

  /** A result that is not returned unchanged has had at least one digit dropped. */
  lemma FixRaisesExponent(d: Dec)
    ensures Fix(d) == d || Fix(d).exp > d.exp
  {
  }

  /** Rounding an odd coefficient always changes the value: the rounded result is
      a multiple of ten in units of the exact one. */
  lemma RoundingOddChangesValue(d: Dec, h: int)
    requires d.coeff == 2 * h + 1 && Fix(d) != d
    ensures var r := Fix(d);
            r.exp > d.exp && r.coeff * Pow10(r.exp - d.exp) != d.coeff
  {
    FixRaisesExponent(d);
    var r := Fix(d);
    var e: nat := r.exp - d.exp;
    assert Pow10(e) == 10 * Pow10(e - 1);
    EvenScaled(r.coeff, Pow10(e - 1));
  }

  lemma EvenScaled(c: int, p: int)
    ensures c * (10 * p) == 10 * (c * p)
  {
  }

  /** A rounded result keeps the sign of the exact one, and in particular is zero
      only when the exact result is zero. */
  lemma FixKeepsSign(d: Dec)
    ensures Sign(Fix(d).coeff) == Sign(d.coeff)
  {
    var m := Abs(d.coeff);
    var n := Digits(m);
    if n > Precision {
      RoundHalfEvenBounds(m, n - Precision, n);
    }
  }

  /** Every rounded result has at most Precision digits. */
  lemma FixWithinPrecision(d: Dec)
    ensures Abs(Fix(d).coeff) < Pow10(Precision)
  {
    var m := Abs(d.coeff);
    var n := Digits(m);
    if n <= Precision {
      DigitsWithinPrecision(m);
    } else {
      RoundHalfEvenBounds(m, n - Precision, n);
      Pow10Monotone(Precision - 1, Precision);
    }
  }

  /** The rounded result is within half a unit of its own last digit of the exact
      one: |Fix(d) - d| <= 10^Fix(d).exp / 2, measured in units of 10^d.exp. */
  lemma FixError(d: Dec)
    ensures var r := Fix(d); var p := Pow10(r.exp - d.exp);
            2 * Abs(r.coeff * p - d.coeff) <= p
  {
    var m := Abs(d.coeff);
    var n := Digits(m);
    if n > Precision {
      var k := n - Precision;
      var p := Pow10(k);
      var q := RoundHalfEven(m, k);
      RoundDivError(m, p);
      if q == Pow10(Precision) {
        var top := Pow10(Precision - 1);
        assert q == 10 * top;
        assert Pow10(k + 1) == 10 * p;
        Rescale(top, p);
        assert top * Pow10(k + 1) == q * p;
        SignedError(d.coeff, top, Pow10(k + 1), Pow10(k + 1));
      } else {
        SignedError(d.coeff, q, p, p);
      }
    }
  }

  lemma Rescale(a: int, p: int)
    ensures a * (10 * p) == (10 * a) * p
  {
  }

  /** Moving the sign onto the magnitudes keeps the distance between them. */
  lemma SignedError(c: int, q: nat, p: nat, h: nat)
    requires 2 * Abs(q * p - Abs(c)) <= h
    ensures 2 * Abs(Sign(c) * q * p - c) <= h
  {
    if c < 0 {
      assert Sign(c) * q * p - c == -(q * p - Abs(c));
    } else if c == 0 {
      assert Abs(c) == 0;
    }
  }

  /** Decimal.__mul__: exact product of the coefficients at the sum of the
      exponents, then rounded to the context. */
  function Mul(a: Dec, b: Dec): (r: Dec)
    ensures Sign(r.coeff) == Sign(a.coeff) * Sign(b.coeff)
    ensures Abs(a.coeff * b.coeff) < Pow10(Precision) ==> r == Dec(a.coeff * b.coeff, a.exp + b.exp)
  {
    var exact := Dec(a.coeff * b.coeff, a.exp + b.exp);
    FixKeepsSign(exact);
    ProductSign(a.coeff, b.coeff);
    FixExact(exact);
    Fix(exact)
  }

  lemma ProductSign(x: int, y: int)
    ensures Sign(x * y) == Sign(x) * Sign(y)
  {
    if x < 0 && y < 0 { assert x * y == (-x) * (-y); }
    else if x < 0 && y > 0 { assert x * y == -((-x) * y); }
    else if x > 0 && y < 0 { assert x * y == -(x * (-y)); }
  }

  lemma AbsMul(x: int, y: int)
    ensures Abs(x * y) == Abs(x) * Abs(y)
  {
    if x < 0 && y < 0 { assert x * y == (-x) * (-y); }
    else if x < 0 { assert x * y == -((-x) * y); }
    else if y < 0 { assert x * y == -(x * (-y)); }
  }

  /** Decimal.__sub__: the operands are aligned to the smaller exponent, the exact
      difference is taken, then rounded to the context. */
  function Sub(a: Dec, b: Dec): (r: Dec)
    ensures a.exp == b.exp ==> Sign(r.coeff) == Sign(a.coeff - b.coeff)
    ensures a.exp == b.exp && Abs(a.coeff - b.coeff) < Pow10(Precision) ==> r == Dec(a.coeff - b.coeff, a.exp)
  {
    var e := if a.exp <= b.exp then a.exp else b.exp;
    var exact := Dec(a.coeff * Pow10(a.exp - e) - b.coeff * Pow10(b.exp - e), e);
    FixKeepsSign(exact);
    FixExact(exact);
    Fix(exact)
  }
}
