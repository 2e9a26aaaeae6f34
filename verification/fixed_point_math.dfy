/** `calculateEMI`: the equal monthly instalment of an annuity loan,
    EMI = P·r·(1+r)^n / ((1+r)^n − 1), in arbitrary-precision fixed point.
    Every quantity is a JavaScript `bigint`; `/` truncates toward zero and a
    zero divisor or a negative exponent throws a `RangeError`.

    The fixed-point power helper `pow` and the internal scale `fixedScale`
    live in `src/utils/bigint.ts` outside this model; they are parameters. */
module FixedPointMath {
  import opened Wrappers

  /** The `RangeError`s `calculateEMI` can throw. */
  datatype MathError = NegativeExponent | DivisionByZero

  function Abs(x: int): nat { if x < 0 then -x else x }

  /** Division of naturals, rounding down, by repeated subtraction. */
  function NatDiv(a: nat, b: nat): nat
    requires b > 0
    decreases a
  {
    if a < b then 0 else 1 + NatDiv(a - b, b)
  }

  /** `NatDiv` is floor division: the largest `q` with `q·b <= a`. */
  lemma {:induction false} NatDivBounds(a: nat, b: nat)
    requires b > 0
    ensures NatDiv(a, b) * b <= a < NatDiv(a, b) * b + b
    decreases a
  {
    if a >= b {
      NatDivBounds(a - b, b);
      var q := NatDiv(a - b, b);
      assert (1 + q) * b == q * b + b;
    }
  }

  /** `bigint` division: the quotient rounded toward zero. */
  function TruncDiv(a: int, b: int): int
    requires b != 0
  {
    var q: int := NatDiv(Abs(a), Abs(b));
    if (a >= 0) == (b > 0) then q else -q
  }

  /** The remainder of a truncating division is smaller than the divisor and
      carries the dividend's sign. */
  lemma TruncDivBounds(a: int, b: int)
    requires b != 0
    ensures Abs(a - b * TruncDiv(a, b)) < Abs(b)
    ensures a - b * TruncDiv(a, b) == 0 || ((a - b * TruncDiv(a, b) > 0) <==> (a > 0))
  {
    var q: int := NatDiv(Abs(a), Abs(b));
    NatDivBounds(Abs(a), Abs(b));
    SignedProduct(a, b, q);
  }

  /** `b` times the signed quotient is `±q·|b|`, with the dividend's sign. */
  lemma SignedProduct(a: int, b: int, q: int)
    requires b != 0
    ensures b * (if (a >= 0) == (b > 0) then q else -q) == (if a >= 0 then q * Abs(b) else -(q * Abs(b)))
  {
    if b > 0 {
      assert b * q == q * Abs(b);
      assert b * -q == -(q * Abs(b));
    } else {
      assert b * q == -(q * Abs(b));
      assert b * -q == q * Abs(b);
    }
  }

  /** Truncation is symmetric in the sign of the dividend. */
  lemma TruncDivNegate(a: int, b: int)
    requires b != 0
    ensures TruncDiv(-a, b) == -TruncDiv(a, b)
  {
  }

  /** An exact division is unaffected by truncation. */
  lemma TruncDivExact(x: int, b: int)
    requires b != 0
    ensures TruncDiv(x * b, b) == x
  {
    var q := TruncDiv(x * b, b);
    TruncDivBounds(x * b, b);
    var d := x - q;
    Distribute(x, q, b);
    MulAbs(d, b);
    if d != 0 {
      MulAtLeast(Abs(d), Abs(b));
    }
  }

  lemma Distribute(x: int, q: int, b: int)
    ensures x * b - b * q == (x - q) * b
  {
  }

  lemma MulAbs(d: int, b: int)
    ensures Abs(d * b) == Abs(d) * Abs(b)
  {
  }

  lemma MulAtLeast(m: int, n: int)
    requires m >= 1 && n >= 0
    ensures m * n >= n
  {
  }

  function Pow10(k: nat): (p: nat)
    ensures p >= 1
  {
    if k == 0 then 1 else 10 * Pow10(k - 1)
  }

  /** `10n ** BigInt(e)`. */
  function BigPow10(e: int): (r: Result<nat, MathError>)
    ensures r.Ok? <==> e >= 0
    ensures r.Ok? ==> r.value == Pow10(e)
  {
    if e < 0 then Err(NegativeExponent) else Ok(Pow10(e))
  }

  /** `a / b` on `bigint`s. */
  function BigDiv(a: int, b: int): (r: Result<int, MathError>)
    ensures r.Ok? <==> b != 0
  {
    if b == 0 then Err(DivisionByZero) else Ok(TruncDiv(a, b))
  }

  /** What the power helper returns: `value` at scale `scale`. */
  datatype PowResult = PowResult(value: int, scale: int)

  datatype EMIResult = EMIResult(emi: int, descaleFactor: int)

  /** `calculateEMI(principal, r, n, principalDecimals, rDecimals)`, raising
      its errors in the order the expressions are evaluated. */
  function CalculateEMI(principal: int, r: int, n: int, principalDecimals: int, rDecimals: int,
                        fixedScale: int, pow: (int, int) -> PowResult): Result<EMIResult, MathError>
  {
    if r == 0 then
      var descale :- BigPow10(principalDecimals);
      var emi :- BigDiv(principal, n);
      Ok(EMIResult(emi, descale))
    else
      CompoundEMI(principal, r, principalDecimals, rDecimals, fixedScale, pow(fixedScale + r, n))
  }

  /** The non-zero-rate branch, once `pow(fixedScale + r, n)` has returned
      `powResult`: the scales `10n ** BigInt(...)` throw first, then the
      instalment's division, then the scale's. */
  function CompoundEMI(principal: int, r: int, principalDecimals: int, rDecimals: int,
                       fixedScale: int, powResult: PowResult): Result<EMIResult, MathError>
  {
    if principalDecimals < 0 || rDecimals < 0 then Err(NegativeExponent)
    else
      var numerator := principal * r * powResult.value;
      var numeratorScale := Pow10(principalDecimals) * Pow10(rDecimals) * powResult.scale;
      var denominator := powResult.value - fixedScale;
      if denominator == 0 then Err(DivisionByZero)
      else
        var emi := TruncDiv(numerator * fixedScale, denominator);
        if powResult.scale == 0 then Err(DivisionByZero)
        else Ok(EMIResult(emi, TruncDiv(numeratorScale * fixedScale, powResult.scale)))
  }

  // ---------------------------------------------------------------------------
  // Properties
  // ---------------------------------------------------------------------------

  /** At a zero rate the instalment is the principal split evenly over the `n`
      months, in the principal's own scale, and neither the power helper nor
      the internal scale is consulted. */
  lemma ZeroRateEvenSplit(principal: int, n: int, principalDecimals: int, rDecimals: int,
                          fixedScale: int, pow: (int, int) -> PowResult)
    requires principalDecimals >= 0 && n != 0
    ensures CalculateEMI(principal, 0, n, principalDecimals, rDecimals, fixedScale, pow)
            == Ok(EMIResult(TruncDiv(principal, n), Pow10(principalDecimals)))
  {
  }

  /** When the computation succeeds or fails, exactly. */
  lemma CalculateEMIDefinedIff(principal: int, r: int, n: int, principalDecimals: int, rDecimals: int,
                               fixedScale: int, pow: (int, int) -> PowResult)
    ensures var res := CalculateEMI(principal, r, n, principalDecimals, rDecimals, fixedScale, pow);
            var p := pow(fixedScale + r, n);
            && (r == 0 ==> (res.Ok? <==> principalDecimals >= 0 && n != 0))
            && (r != 0 ==> (res.Ok? <==> principalDecimals >= 0 && rDecimals >= 0
                                         && p.value != fixedScale && p.scale != 0))
            && (res.Err? && res.error == NegativeExponent ==> principalDecimals < 0 || (r != 0 && rDecimals < 0))
  {
  }

  /** The power is taken of `1 + r` in the internal scale: two helpers that
      agree there give the same result. */
  lemma PowOnlyAtOnePlusR(principal: int, r: int, n: int, principalDecimals: int, rDecimals: int,
                          fixedScale: int, pow1: (int, int) -> PowResult, pow2: (int, int) -> PowResult)
    requires pow1(fixedScale + r, n) == pow2(fixedScale + r, n)
    ensures CalculateEMI(principal, r, n, principalDecimals, rDecimals, fixedScale, pow1)
            == CalculateEMI(principal, r, n, principalDecimals, rDecimals, fixedScale, pow2)
  {
  }

  /** Away from a zero rate the result has a closed form: the instalment is
      P·r·v·f / (v − f) truncated, with `v` the power's value and `f` the
      internal scale, and the descale factor is the product of the three
      scales, the power's own scale cancelling exactly. */
  lemma CalculateEMIClosedForm(principal: int, r: int, n: int, principalDecimals: int, rDecimals: int,
                               fixedScale: int, pow: (int, int) -> PowResult)
    requires CalculateEMI(principal, r, n, principalDecimals, rDecimals, fixedScale, pow).Ok?
    requires r != 0
    ensures var res := CalculateEMI(principal, r, n, principalDecimals, rDecimals, fixedScale, pow).value;
            var v := pow(fixedScale + r, n).value;
            && principalDecimals >= 0 && rDecimals >= 0 && v != fixedScale
            && res.emi == TruncDiv(principal * r * v * fixedScale, v - fixedScale)
            && res.descaleFactor == Pow10(principalDecimals) * Pow10(rDecimals) * fixedScale
  {
    CompoundDescale(principal, r, principalDecimals, rDecimals, fixedScale, pow(fixedScale + r, n));
  }

  lemma CompoundDescale(principal: int, r: int, principalDecimals: int, rDecimals: int,
                        fixedScale: int, p: PowResult)
    requires CompoundEMI(principal, r, principalDecimals, rDecimals, fixedScale, p).Ok?
    ensures principalDecimals >= 0 && rDecimals >= 0 && p.scale != 0 && p.value != fixedScale
    ensures CompoundEMI(principal, r, principalDecimals, rDecimals, fixedScale, p).value.descaleFactor
            == Pow10(principalDecimals) * Pow10(rDecimals) * fixedScale
    ensures CompoundEMI(principal, r, principalDecimals, rDecimals, fixedScale, p).value.emi
            == TruncDiv(principal * r * p.value * fixedScale, p.value - fixedScale)
  {
    var s := Pow10(principalDecimals) * Pow10(rDecimals);
    Regroup(s, p.scale, fixedScale);
    TruncDivExact(s * fixedScale, p.scale);
  }

  lemma Regroup(s: int, ps: int, f: int)
    ensures s * ps * f == (s * f) * ps
  {
  }

  /** With a positive rate, a non-negative principal and a power above one,
      the instalment is non-negative. */
  lemma CalculateEMINonNegative(principal: int, r: int, n: int, principalDecimals: int, rDecimals: int,
                                fixedScale: int, pow: (int, int) -> PowResult)
    requires CalculateEMI(principal, r, n, principalDecimals, rDecimals, fixedScale, pow).Ok?
    requires principal >= 0 && r > 0 && fixedScale > 0 && pow(fixedScale + r, n).value > fixedScale
    ensures CalculateEMI(principal, r, n, principalDecimals, rDecimals, fixedScale, pow).value.emi >= 0
  {
    var p := pow(fixedScale + r, n);
    CompoundDescale(principal, r, principalDecimals, rDecimals, fixedScale, p);
    NonNegativeProduct(principal, r, p.value, fixedScale);
    TruncDivNonNegative(principal * r * p.value * fixedScale, p.value - fixedScale);
  }

  lemma NonNegativeProduct(a: int, b: int, c: int, d: int)
    requires a >= 0 && b >= 0 && c >= 0 && d >= 0
    ensures a * b * c * d >= 0
  {
  }

  lemma TruncDivNonNegative(a: int, b: int)
    requires a >= 0 && b > 0
    ensures TruncDiv(a, b) >= 0
  {
  }

  /** The textbook instalment of a principal P at periodic rate R, with G
      standing for the compounding factor (1 + R)^n. */
  function Annuity(P: real, R: real, G: real): real
    requires G != 1.0
  {
    P * R * G / (G - 1.0)
  }

  /** `emi`, counted in units of `1/descale`, is within one unit of the
      annuity `Annuity(P, R, G)`. */
  predicate WithinOneOfAnnuity(emi: int, descale: int, P: real, R: real, G: real)
  {
    G != 1.0 && -1.0 < emi as real - Annuity(P, R, G) * descale as real < 1.0
  }

  /** The truncated closed form against the annuity formula, with the
      principal P and the rate R read at their own scales and the power's
      value `powValue` read at the internal scale as G: the instalment is
      within one unit of `Annuity(P, R, G)`, expressed in the descale factor. */
  lemma TruncatedAnnuityBound(emi: int, descaleFactor: int, principal: int, r: int, powValue: int,
                              fixedScale: int, principalScale: int, rScale: int)
    requires fixedScale > 0 && principalScale > 0 && rScale > 0 && powValue != fixedScale
    requires emi == TruncDiv(principal * r * powValue * fixedScale, powValue - fixedScale)
    requires descaleFactor == principalScale * rScale * fixedScale
    ensures WithinOneOfAnnuity(emi, descaleFactor, principal as real / principalScale as real,
                               r as real / rScale as real, powValue as real / fixedScale as real)
  {
    OneBelow(powValue as real, fixedScale as real);
    var A := Annuity(principal as real / principalScale as real, r as real / rScale as real,
                     powValue as real / fixedScale as real);
    var num := principal * r * powValue * fixedScale;
    var den := powValue - fixedScale;
    AnnuityIdentityAt(principal, r, powValue, fixedScale, principalScale, rScale, A, descaleFactor, num, den);
    Combine(emi, num, den, A * descaleFactor as real);
  }

  /** The annuity formula, under the two scale conventions `calculateEMI`
      relies on without checking them: the rate is given at the internal
      scale (`10^rDecimals == fixedScale`), so `fixedScale + r` is 1 + R at
      that scale; and the power helper answers at the internal scale, so its
      value minus `fixedScale` is G − 1. Read P at `10^principalDecimals`,
      R at `10^rDecimals` and G at the power's own scale: the truncated
      instalment is within one unit of `Annuity(P, R, G)`, expressed in the
      descale factor. */
  lemma InstalmentMatchesAnnuity(principal: int, r: int, n: int, principalDecimals: int, rDecimals: int,
                                 fixedScale: int, pow: (int, int) -> PowResult)
    requires CalculateEMI(principal, r, n, principalDecimals, rDecimals, fixedScale, pow).Ok?
    requires r != 0 && principalDecimals >= 0 && rDecimals >= 0
    requires fixedScale == Pow10(rDecimals)
    requires pow(fixedScale + r, n).scale == fixedScale
    ensures var res := CalculateEMI(principal, r, n, principalDecimals, rDecimals, fixedScale, pow).value;
            var p := pow(fixedScale + r, n);
            var P := principal as real / Pow10(principalDecimals) as real;
            var R := r as real / Pow10(rDecimals) as real;
            var G := p.value as real / p.scale as real;
            && (fixedScale + r) as real / fixedScale as real == 1.0 + R
            && WithinOneOfAnnuity(res.emi, res.descaleFactor, P, R, G)
  {
    var p := pow(fixedScale + r, n);
    AnnuityAtScales(principal, r, principalDecimals, rDecimals, fixedScale, p);
  }

  /** `InstalmentMatchesAnnuity` once the power helper has answered `p`. */
  lemma AnnuityAtScales(principal: int, r: int, principalDecimals: nat, rDecimals: nat, f: int, p: PowResult)
    requires CompoundEMI(principal, r, principalDecimals, rDecimals, f, p).Ok?
    requires f == Pow10(rDecimals) && p.scale == f
    ensures var res := CompoundEMI(principal, r, principalDecimals, rDecimals, f, p).value;
            var P := principal as real / Pow10(principalDecimals) as real;
            var R := r as real / Pow10(rDecimals) as real;
            var G := p.value as real / p.scale as real;
            && (f + r) as real / f as real == 1.0 + R
            && WithinOneOfAnnuity(res.emi, res.descaleFactor, P, R, G)
  {
    CompoundDescale(principal, r, principalDecimals, rDecimals, f, p);
    var res := CompoundEMI(principal, r, principalDecimals, rDecimals, f, p).value;
    TruncatedAnnuityBound(res.emi, res.descaleFactor, principal, r, p.value, f,
                          Pow10(principalDecimals), Pow10(rDecimals));
    OnePlusRate(r, f);
  }

  lemma OnePlusRate(r: int, f: int)
    requires f > 0
    ensures (f + r) as real / f as real == 1.0 + r as real / f as real
  {
    var x, c := r as real, f as real;
    assert (f + r) as real == c + x;
    DivMul(c + x, c);
    DivMul(x, c);
    CancelFactor((c + x) / c, 1.0 + x / c, c);
  }

  lemma CancelFactor(x: real, y: real, c: real)
    requires c != 0.0 && x * c == y * c
    ensures x == y
  {
    assert (x - y) * c == 0.0;
  }

  /** `x^n` on reals. */
  function RealPow(x: real, n: nat): real
  {
    if n == 0 then 1.0 else x * RealPow(x, n - 1)
  }

  /** When, in addition, the power helper is exact, G is (1 + R)^n and the
      instalment is the textbook annuity `P·R·(1+R)^n / ((1+R)^n − 1)` to
      within one unit. */
  lemma InstalmentMatchesExactAnnuity(principal: int, r: int, n: nat, principalDecimals: int, rDecimals: int,
                                      fixedScale: int, pow: (int, int) -> PowResult)
    requires CalculateEMI(principal, r, n, principalDecimals, rDecimals, fixedScale, pow).Ok?
    requires r != 0 && principalDecimals >= 0 && rDecimals >= 0
    requires fixedScale == Pow10(rDecimals)
    requires pow(fixedScale + r, n).scale == fixedScale
    requires pow(fixedScale + r, n).value as real / fixedScale as real
             == RealPow(1.0 + r as real / fixedScale as real, n)
    ensures var res := CalculateEMI(principal, r, n, principalDecimals, rDecimals, fixedScale, pow).value;
            var P := principal as real / Pow10(principalDecimals) as real;
            var R := r as real / Pow10(rDecimals) as real;
            WithinOneOfAnnuity(res.emi, res.descaleFactor, P, R, RealPow(1.0 + R, n))
  {
    InstalmentMatchesAnnuity(principal, r, n, principalDecimals, rDecimals, fixedScale, pow);
  }

  /** The hazard of the first convention: with the rate at any scale other
      than the internal one, `fixedScale + r` is not 1 + R at the internal
      scale, so the power is taken of the wrong base. */
  lemma RateScaleMismatch(r: int, rDecimals: nat, fixedScale: int)
    requires r != 0 && fixedScale > 0 && Pow10(rDecimals) != fixedScale
    ensures (fixedScale + r) as real / fixedScale as real != 1.0 + r as real / Pow10(rDecimals) as real
  {
    var f := fixedScale as real;
    var q := Pow10(rDecimals) as real;
    OnePlusRate(r, fixedScale);
    if r as real / f == r as real / q {
      DivEqual(r as real, f, q);
      assert false;
    }
  }

  lemma DivEqual(x: real, a: real, b: real)
    requires x != 0.0 && a > 0.0 && b > 0.0 && x / a == x / b
    ensures a == b
  {
    assert x / a * a == x;
    assert x / b * b == x;
    assert (x / a) * a == (x / a) * b;
  }

  lemma AnnuityIdentityAt(principal: int, r: int, pv: int, f: int, a: int, b: int,
                          A: real, scale: int, num: int, den: int)
    requires f > 0 && a > 0 && b > 0 && pv != f
    requires pv as real / f as real != 1.0
    requires A == Annuity(principal as real / a as real, r as real / b as real, pv as real / f as real)
    requires scale == a * b * f && num == principal * r * pv * f && den == pv - f
    ensures A * scale as real == num as real / den as real
  {
    AnnuityIdentity(principal, r, pv, f, a, b);
  }

  lemma Combine(emi: int, num: int, den: int, x: real)
    requires den != 0 && emi == TruncDiv(num, den) && x == num as real / den as real
    ensures -1.0 < emi as real - x < 1.0
  {
    TruncWithinOne(num, den);
  }

  /** The exact quotient of the instalment's numerator and denominator is the
      annuity formula scaled by the descale factor `a·b·f`. */
  lemma AnnuityIdentity(principal: int, r: int, pv: int, f: int, a: int, b: int)
    requires f > 0 && a > 0 && b > 0 && pv != f
    ensures pv as real / f as real != 1.0
    ensures Annuity(principal as real / a as real, r as real / b as real, pv as real / f as real)
            * (a * b * f) as real
            == (principal * r * pv * f) as real / (pv - f) as real
  {
    RealOfProduct3(a, b, f);
    RealOfProduct4(principal, r, pv, f);
    AnnuityReal(principal as real, r as real, pv as real, a as real, b as real, f as real);
  }

  lemma RealOfProduct3(a: int, b: int, c: int)
    ensures (a * b * c) as real == a as real * b as real * c as real
  {
    RealOfProduct(a, b);
    RealOfProduct(a * b, c);
  }

  lemma RealOfProduct4(a: int, b: int, c: int, d: int)
    ensures (a * b * c * d) as real == a as real * b as real * c as real * d as real
  {
    RealOfProduct3(a, b, c);
    RealOfProduct(a * b * c, d);
  }

  lemma AnnuityReal(pr: real, rr: real, vr: real, ar: real, br: real, fr: real)
    requires ar > 0.0 && br > 0.0 && fr > 0.0 && vr != fr
    ensures vr / fr != 1.0
    ensures Annuity(pr / ar, rr / br, vr / fr) * (ar * br * fr) == pr * rr * vr * fr / (vr - fr)
  {
    OneBelow(vr, fr);
    ScaledProduct(pr, rr, vr, ar, br, fr);
    QuotientRescaled((pr / ar) * (rr / br) * (vr / fr), vr / fr - 1.0, ar * br * fr,
                     pr * rr * vr, fr, vr - fr);
  }

  /** x/w·d = n·f/m when x·d = n and w·f = m. */
  lemma QuotientRescaled(x: real, w: real, d: real, n: real, f: real, m: real)
    requires w != 0.0 && f != 0.0 && x * d == n && w * f == m
    ensures x / w * d == n * f / m
  {
    DivTimes(x, w, d);
    ScaleFraction(n, w, f);
  }

  /** (p/a)·(r/b)·(v/f) · (a·b·f) = p·r·v. */
  lemma ScaledProduct(pr: real, rr: real, vr: real, ar: real, br: real, fr: real)
    requires ar > 0.0 && br > 0.0 && fr > 0.0
    ensures (pr / ar) * (rr / br) * (vr / fr) * (ar * br * fr) == pr * rr * vr
  {
    var P, R, G := pr / ar, rr / br, vr / fr;
    DivMul(pr, ar);
    DivMul(rr, br);
    DivMul(vr, fr);
    Regroup3(P, R, G, 1.0, ar, br, fr);
  }

  lemma DivTimes(x: real, w: real, d: real)
    requires w != 0.0
    ensures x / w * d == x * d / w
  {
  }

  lemma Regroup3(x: real, y: real, z: real, w: real, a: real, b: real, c: real)
    requires w != 0.0
    ensures x * y * z / w * (a * b * c) == (x * a) * (y * b) * (z * c) / w
  {
  }

  lemma ScaleFraction(n: real, w: real, c: real)
    requires w != 0.0 && c != 0.0
    ensures n / w == n * c / (w * c)
  {
  }

  lemma DivMul(x: real, y: real)
    requires y != 0.0
    ensures x / y * y == x
  {
  }

  /** `v/f − 1`, scaled back by `f`, is `v − f`. */
  lemma OneBelow(v: real, f: real)
    requires f > 0.0 && v != f
    ensures (v / f - 1.0) * f == v - f && v / f - 1.0 != 0.0
  {
  }

  lemma RealOfProduct(x: int, y: int)
    ensures (x * y) as real == x as real * y as real
  {
  }

  /** The truncated quotient is within one of the exact one. */
  lemma TruncWithinOne(a: int, b: int)
    requires b != 0
    ensures -1.0 < TruncDiv(a, b) as real - a as real / b as real < 1.0
  {
    TruncDivBounds(a, b);
    WithinOneOfQuotient(a, b, TruncDiv(a, b));
  }

  /** Any `q` whose remainder is smaller than the divisor is within one of the
      exact quotient. */
  lemma WithinOneOfQuotient(a: int, b: int, q: int)
    requires b != 0 && Abs(a - b * q) < Abs(b)
    ensures -1.0 < q as real - a as real / b as real < 1.0
  {
    RemainderAsReal(a, b, q);
    RealWithinOne(a as real, b as real, q as real, (a - b * q) as real);
  }

  lemma RemainderAsReal(a: int, b: int, q: int)
    requires Abs(a - b * q) < Abs(b)
    ensures a as real - b as real * q as real == (a - b * q) as real
    ensures (b > 0 && -b < a - b * q < b) || (b < 0 && b < a - b * q < -b)
  {
    RealOfProduct(b, q);
  }

  lemma RealWithinOne(ar: real, br: real, qr: real, rem: real)
    requires br != 0.0 && ar - br * qr == rem
    requires (br > 0.0 && -br < rem < br) || (br < 0.0 && br < rem < -br)
    ensures -1.0 < qr - ar / br < 1.0
  {
    var d := qr - ar / br;
    DivMul(ar, br);
    SubMul(qr, ar / br, br);
    assert d * br == -rem;
    if br > 0.0 {
      Within(d, br, -rem);
    } else {
      assert (-d) * (-br) == -rem;
      Within(-d, -br, -rem);
    }
  }

  lemma SubMul(x: real, y: real, c: real)
    ensures (x - y) * c == x * c - y * c
  {
  }

  lemma Within(d: real, c: real, e: real)
    requires d * c == e && -c < e < c && c > 0.0
    ensures -1.0 < d < 1.0
  {
  }
}
