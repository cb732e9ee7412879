/**
 * The payment formula of the mortgage calculator (`calculateMonthlyPayment`),
 * over exact reals.
 *
 * The monthly rate is the annual percentage divided by 1200, the number of
 * payments is twelve per year of term (a term is modelled when that number is
 * whole, so half a year is 6 payments), and the payment is the annuity formula
 *   P * r * (1 + r)^n / ((1 + r)^n - 1).
 * A result that is not a finite number is replaced by "no result". Over exact
 * reals that happens exactly when a division by zero occurs: in the final
 * division, or in the power itself when the base is 0 and the exponent negative.
 */
module Payment {
  import opened Wrappers

  /** b^n for a natural exponent. */
  function Pow(b: real, n: nat): (r: real)
    ensures b != 0.0 ==> r != 0.0
    ensures b > 0.0 ==> r > 0.0
  {
    if n == 0 then 1.0 else b * Pow(b, n - 1)
  }

  /**
   * `Math.pow(b, n)` for an integer exponent: a negative exponent is the
   * reciprocal of the positive power, which is not finite when the base is 0.
   */
  function IntPow(b: real, n: int): (r: Option<real>)
    ensures r.None? <==> n < 0 && b == 0.0
    ensures n < 0 && r.Some? ==> r.value * Pow(b, -n) == 1.0
  {
    if n >= 0 then Some(Pow(b, n))
    else if b == 0.0 then None
    else Some(1.0 / Pow(b, -n))
  }

  /** `interestRate / 1200`: an annual percentage as a monthly fraction. */
  function MonthlyRate(annualRate: real): (r: real)
    ensures r * 1200.0 == annualRate
  {
    annualRate / 1200.0
  }

  /** A term, in years, that is a whole number of months. */
  predicate WholeMonths(years: real)
  {
    (years * 12.0).Floor as real == years * 12.0
  }

  /** `loanTerm * 12`: the number of monthly payments. */
  function TotalPayments(years: real): (n: int)
    requires WholeMonths(years)
    ensures n as real == years * 12.0
  {
    (years * 12.0).Floor
  }

  /**
   * The monthly payment for a principal, an annual percentage rate and a term
   * in years, or None where the source stores `null`.
   */
  function MonthlyPayment(principal: real, annualRate: real, years: real): (p: Option<real>)
    requires WholeMonths(years)
  {
    var r := MonthlyRate(annualRate);
    var growth := IntPow(1.0 + r, TotalPayments(years));
    if growth.None? then None
    else
      var g := growth.value;
      if g - 1.0 == 0.0 then None
      else Some(AnnuityPayment(principal, r, g))
  }

  /** `numerator / denominator` of the source, for a growth factor g = (1 + r)^n other than 1. */
  function AnnuityPayment(principal: real, r: real, g: real): (p: real)
    requires g != 1.0
  {
    principal * r * g / (g - 1.0)
  }

  // ---------------------------------------------------------------------
  // Facts about the power

  lemma {:induction false} PowOfOne(n: nat)
    ensures Pow(1.0, n) == 1.0
  {
    if n > 0 { PowOfOne(n - 1); }
  }

  lemma {:induction false} PowOfSquare(b: real, k: nat)
    ensures Pow(b, 2 * k) == Pow(b * b, k)
  {
    if k > 0 {
      PowOfSquare(b, k - 1);
      assert Pow(b, 2 * k) == b * (b * Pow(b, 2 * (k - 1)));
    }
  }

  lemma {:induction false} PowAboveOne(c: real, k: nat)
    requires c > 1.0 && k >= 1
    ensures Pow(c, k) > 1.0
  {
    if k > 1 {
      PowAboveOne(c, k - 1);
      assert c * Pow(c, k - 1) > 1.0 * Pow(c, k - 1);
    }
  }

  lemma {:induction false} PowBelowOne(c: real, k: nat)
    requires 0.0 <= c < 1.0 && k >= 1
    ensures 0.0 <= Pow(c, k) < 1.0
  {
    if k > 1 {
      PowBelowOne(c, k - 1);
      assert c * Pow(c, k - 1) <= 1.0 * Pow(c, k - 1);
    }
  }

  /** An even power of b is 1 exactly when b is 1 or -1. */
  lemma EvenPowIsOne(b: real, k: nat)
    requires k >= 1
    ensures Pow(b, 2 * k) == 1.0 <==> b == 1.0 || b == -1.0
  {
    PowOfSquare(b, k);
    var c := b * b;
    if b > 1.0 || b < -1.0 {
      assert c > 1.0 by {
        if b > 1.0 { assert b * b > 1.0 * b; } else { assert b * b > -1.0 * b; }
      }
      PowAboveOne(c, k);
    } else if b == 1.0 || b == -1.0 {
      PowOfOne(k);
    } else {
      assert 0.0 <= c < 1.0 by {
        if b >= 0.0 { assert b * b <= 1.0 * b; } else { assert b * b <= -1.0 * b; }
      }
      PowBelowOne(c, k);
    }
  }

  lemma {:induction false} PowAdd(b: real, m: nat, n: nat)
    ensures Pow(b, m + n) == Pow(b, m) * Pow(b, n)
  {
    if m > 0 {
      PowAdd(b, m - 1, n);
      assert Pow(b, m + n) == b * Pow(b, (m - 1) + n);
    }
  }

  /** A positive power of b is 1 exactly when b is 1, or b is -1 and the exponent is even. */
  lemma PowIsOne(b: real, m: nat)
    requires m >= 1
    ensures Pow(b, m) == 1.0 <==> b == 1.0 || (b == -1.0 && m % 2 == 0)
  {
    var k := m / 2;
    if m % 2 == 0 {
      assert m == 2 * k;
      EvenPowIsOne(b, k);
    } else {
      assert m == 2 * k + 1;
      if b == 1.0 {
        PowOfOne(m);
      } else if b == -1.0 {
        PowOfSquare(-1.0, k);
        PowOfOne(k);
        assert Pow(b, m) == b * Pow(b, 2 * k);
      } else if Pow(b, m) == 1.0 {
        PowAdd(b, m, m);
        assert Pow(b, 2 * m) == 1.0;
        EvenPowIsOne(b, m);
        assert false;
      }
    }
  }

  // ---------------------------------------------------------------------
  // When the calculator shows no payment

  /**
   * The exact set of inputs for which no payment is stored: a zero term, a
   * zero rate (there is no straight-line fallback), a rate of -2400 percent
   * with an even number of months (base -1), or a negative term with a rate
   * of -1200 percent (base 0 raised to a negative power). The principal plays
   * no part.
   */
  lemma NoResultIff(principal: real, annualRate: real, years: real)
    requires WholeMonths(years)
    ensures MonthlyPayment(principal, annualRate, years) == None <==>
      years == 0.0 || annualRate == 0.0 ||
      (annualRate == -2400.0 && TotalPayments(years) % 2 == 0) ||
      (years < 0.0 && annualRate == -1200.0)
  {
    var b := 1.0 + MonthlyRate(annualRate);
    var n := TotalPayments(years);
    assert b == 1.0 <==> annualRate == 0.0;
    assert b == -1.0 <==> annualRate == -2400.0;
    assert b == 0.0 <==> annualRate == -1200.0;
    if n > 0 {
      PowIsOne(b, n);
    } else if n < 0 {
      PowIsOne(b, -n);
      assert (-n) % 2 == 0 <==> n % 2 == 0;
      if b != 0.0 {
        var q := Pow(b, -n);
        assert 1.0 / q == 1.0 <==> q == 1.0;
      }
    }
  }

  lemma ZeroRateHasNoResult(principal: real, years: real)
    requires WholeMonths(years)
    ensures MonthlyPayment(principal, 0.0, years) == None
  {
    NoResultIff(principal, 0.0, years);
  }

  lemma ZeroTermHasNoResult(principal: real, annualRate: real)
    ensures MonthlyPayment(principal, annualRate, 0.0) == None
  {
    NoResultIff(principal, annualRate, 0.0);
  }

  /**
   * The inputs with a positive term for which a payment is stored: the
   * complement of the no-result cases of `NoResultIff`.
   */
  predicate Payable(annualRate: real, years: real)
  {
    WholeMonths(years) && years > 0.0 && annualRate != 0.0 &&
    (annualRate != -2400.0 || TotalPayments(years) % 2 == 1)
  }

  // ---------------------------------------------------------------------
  // The payment for valid inputs, and its dependence on the principal

  /**
   * For a positive principal, a positive rate and a positive term of whole
   * months a payment is always stored, and it exceeds the first month's
   * interest, so the loan is paid down from the first month on.
   */
  lemma PresentWhenValid(principal: real, annualRate: real, years: real)
    requires principal > 0.0 && annualRate > 0.0 && years > 0.0 && WholeMonths(years)
    ensures MonthlyPayment(principal, annualRate, years).Some?
    ensures MonthlyPayment(principal, annualRate, years).value > principal * MonthlyRate(annualRate) > 0.0
  {
    var r := MonthlyRate(annualRate);
    var n := TotalPayments(years);
    PowAboveOne(1.0 + r, n);
    var g := Pow(1.0 + r, n);
    assert MonthlyPayment(principal, annualRate, years) == Some(AnnuityPayment(principal, r, g));
    var interest := principal * r;
    assert interest > 0.0;
    var d := g - 1.0;
    var q := g / d;
    assert q * d == g;
    assert (q - 1.0) * d == 1.0;
    assert q > 1.0;
    assert principal * r * g / d == interest * q;
    assert interest * q > interest * 1.0;
  }

  /** The payment is linear in the principal; whether there is one does not depend on it. */
  lemma ScalesWithPrincipal(principal: real, k: real, annualRate: real, years: real)
    requires WholeMonths(years)
    ensures MonthlyPayment(k * principal, annualRate, years).Some? <==>
      MonthlyPayment(principal, annualRate, years).Some?
    ensures MonthlyPayment(principal, annualRate, years).Some? ==>
      MonthlyPayment(k * principal, annualRate, years).value ==
      k * MonthlyPayment(principal, annualRate, years).value
  {
    var r := MonthlyRate(annualRate);
    var growth := IntPow(1.0 + r, TotalPayments(years));
    if growth.Some? && growth.value - 1.0 != 0.0 {
      var g := growth.value;
      assert MonthlyPayment(principal, annualRate, years) == Some(AnnuityPayment(principal, r, g));
      assert MonthlyPayment(k * principal, annualRate, years) == Some(AnnuityPayment(k * principal, r, g));
      AnnuityPaymentScales(k, principal, r, g);
    }
  }

  lemma AnnuityPaymentScales(k: real, principal: real, r: real, g: real)
    requires g != 1.0
    ensures AnnuityPayment(k * principal, r, g) == k * AnnuityPayment(principal, r, g)
  {
    var d := g - 1.0;
    var a := principal * r * g;
    var q := a / d;
    assert q * d == a;
    assert k * principal * r * g == k * a;
    assert (k * q) * d == k * a;
  }

  /** For valid rate and term, a larger principal gives a strictly larger payment. */
  lemma IncreasingInPrincipal(p1: real, p2: real, annualRate: real, years: real)
    requires p1 < p2 && annualRate > 0.0 && years > 0.0 && WholeMonths(years)
    ensures MonthlyPayment(p1, annualRate, years).Some?
    ensures MonthlyPayment(p2, annualRate, years).Some?
    ensures MonthlyPayment(p1, annualRate, years).value < MonthlyPayment(p2, annualRate, years).value
  {
    PresentWhenValid(1.0, annualRate, years);
    var unit := MonthlyPayment(1.0, annualRate, years).value;
    ScalesWithPrincipal(1.0, p1, annualRate, years);
    ScalesWithPrincipal(1.0, p2, annualRate, years);
    assert p1 * 1.0 == p1 && p2 * 1.0 == p2;
    assert p1 * unit < p2 * unit;
  }

  /**
   * The calculator page mounts the component with a principal of 100, a rate
   * of 5.5 percent and a term of 1 year; the payment, 8.5837 to four
   * decimals, is shown as 8.58.
   */
  lemma CalculatorPageExample()
    ensures MonthlyPayment(100.0, 5.5, 1.0).Some?
    ensures 8.5835 < MonthlyPayment(100.0, 5.5, 1.0).value < 8.5840
  {
    var r := MonthlyRate(5.5);
    assert 1.0 + r == 2411.0 / 2400.0;
    var g := Pow(2411.0 / 2400.0, 12);
    assert g == 38580382095460899155325996786287338133521.0 / 36520347436056576000000000000000000000000.0;
    assert MonthlyPayment(100.0, 5.5, 1.0) == Some(AnnuityPayment(100.0, r, g));
  }
}
