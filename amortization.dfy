/**
 * An independent account of what a monthly payment means: the month-by-month
 * balance of the loan, and the present value of a stream of payments. The
 * lemmas tie the calculator's closed formula to these reference definitions.
 */
module Amortization {
  import opened Wrappers
  import opened Payment

  /**
   * What is still owed after k monthly payments of p on a loan of `principal`
   * at monthly rate r: each month interest accrues on the balance, then the
   * payment is deducted.
   */
  function Balance(principal: real, r: real, p: real, k: nat): real
  {
    if k == 0 then principal else Balance(principal, r, p, k - 1) * (1.0 + r) - p
  }

  /** 1 + b + ... + b^(k-1), in Horner form. */
  function GeomSum(b: real, k: nat): real
  {
    if k == 0 then 0.0 else 1.0 + b * GeomSum(b, k - 1)
  }

  /** v + v^2 + ... + v^k: the value today of k payments of 1 discounted by v per month. */
  function DiscountSum(v: real, k: nat): real
  {
    if k == 0 then 0.0 else v * (1.0 + DiscountSum(v, k - 1))
  }

  // ---------------------------------------------------------------------
  // Algebra of the reference definitions

  lemma {:induction false} GeomSumIdentity(b: real, k: nat)
    ensures (b - 1.0) * GeomSum(b, k) == Pow(b, k) - 1.0
  {
    if k > 0 {
      GeomSumIdentity(b, k - 1);
      var s := GeomSum(b, k - 1);
      assert (b - 1.0) * (1.0 + b * s) == (b - 1.0) + b * ((b - 1.0) * s);
    }
  }

  lemma {:induction false} GeomSumTail(b: real, k: nat)
    ensures GeomSum(b, k + 1) == GeomSum(b, k) + Pow(b, k)
  {
    if k > 0 {
      GeomSumTail(b, k - 1);
      assert b * (GeomSum(b, k - 1) + Pow(b, k - 1)) == b * GeomSum(b, k - 1) + b * Pow(b, k - 1);
    }
  }

  lemma {:induction false} GeomSumOfOne(k: nat)
    ensures GeomSum(1.0, k) == k as real
  {
    if k > 0 { GeomSumOfOne(k - 1); }
  }

  lemma {:induction false} BalanceClosedForm(principal: real, r: real, p: real, k: nat)
    ensures Balance(principal, r, p, k) == principal * Pow(1.0 + r, k) - p * GeomSum(1.0 + r, k)
  {
    if k > 0 {
      BalanceClosedForm(principal, r, p, k - 1);
      var b := 1.0 + r;
      var g := Pow(b, k - 1);
      var s := GeomSum(b, k - 1);
      assert (principal * g - p * s) * b - p == principal * (b * g) - p * (1.0 + b * s);
    }
  }

  lemma {:induction false} DiscountSumGrowth(v: real, b: real, k: nat)
    requires v * b == 1.0
    ensures DiscountSum(v, k) * Pow(b, k) == GeomSum(b, k)
  {
    if k > 0 {
      DiscountSumGrowth(v, b, k - 1);
      GeomSumTail(b, k - 1);
      var a := DiscountSum(v, k - 1);
      var g := Pow(b, k - 1);
      assert v * (1.0 + a) * (b * g) == (v * b) * (g + a * g);
    }
  }

  lemma {:induction false} DiscountSumIncreasing(v1: real, v2: real, k: nat)
    requires 0.0 < v1 < v2 && k >= 1
    ensures 0.0 < DiscountSum(v1, k) < DiscountSum(v2, k)
  {
    if k > 1 {
      DiscountSumIncreasing(v1, v2, k - 1);
      var a1 := DiscountSum(v1, k - 1);
      var a2 := DiscountSum(v2, k - 1);
      ProductLess(v1, v2, 1.0 + a1, 1.0 + a2);
    }
  }

  // ---------------------------------------------------------------------
  // The calculator's payment against the reference definitions

  /**
   * The annuity equation: n payments of p, each grown to the end of the term,
   * add up to the principal grown to the end of the term.
   */
  lemma PaymentEquation(principal: real, annualRate: real, years: real)
    requires Payable(annualRate, years)
    ensures MonthlyPayment(principal, annualRate, years).Some?
    ensures var b := 1.0 + MonthlyRate(annualRate);
      var n := TotalPayments(years);
      MonthlyPayment(principal, annualRate, years).value * GeomSum(b, n) == principal * Pow(b, n)
  {
    NoResultIff(principal, annualRate, years);
    var r := MonthlyRate(annualRate);
    var b := 1.0 + r;
    var n := TotalPayments(years);
    var g := Pow(b, n);
    StoredPayment(principal, annualRate, years);
    GeomSumIdentity(b, n);
    AnnuityTimesSum(principal, r, g, GeomSum(b, n));
  }

  /** Where a payment is stored, it is numerator / denominator at g = (1 + r)^n. */
  lemma StoredPayment(principal: real, annualRate: real, years: real)
    requires Payable(annualRate, years)
    ensures var r := MonthlyRate(annualRate);
      var g := Pow(1.0 + r, TotalPayments(years));
      g != 1.0 && MonthlyPayment(principal, annualRate, years) == Some(AnnuityPayment(principal, r, g))
  {
    NoResultIff(principal, annualRate, years);
  }

  lemma AnnuityTimesSum(principal: real, r: real, g: real, s: real)
    requires g != 1.0 && r * s == g - 1.0
    ensures AnnuityPayment(principal, r, g) * s == principal * g
  {
    var p := AnnuityPayment(principal, r, g);
    var d := g - 1.0;
    assert p * d == principal * r * g;
    assert r != 0.0;
    assert r * (p * s) == p * (r * s);
    assert r * (p * s) == r * (principal * g);
    Cancel(r, p * s, principal * g);
  }

  /**
   * The stored payment is the one, and the only one, that brings the balance
   * to exactly zero after the last month of the term.
   */
  lemma RepaysExactly(principal: real, annualRate: real, years: real, q: real)
    requires Payable(annualRate, years)
    ensures MonthlyPayment(principal, annualRate, years).Some?
    ensures Balance(principal, MonthlyRate(annualRate), q, TotalPayments(years)) == 0.0 <==>
      q == MonthlyPayment(principal, annualRate, years).value
  {
    NoResultIff(principal, annualRate, years);
    var s := GeomSum(1.0 + MonthlyRate(annualRate), TotalPayments(years));
    var p := MonthlyPayment(principal, annualRate, years).value;
    FinalBalance(principal, annualRate, years, q);
    GeomSumNonZero(annualRate, years);
    ZeroProduct(p - q, s);
  }

  /** After the last month, paying q instead of the stored payment p leaves (p - q) times the growth sum. */
  lemma FinalBalance(principal: real, annualRate: real, years: real, q: real)
    requires Payable(annualRate, years)
    ensures MonthlyPayment(principal, annualRate, years).Some?
    ensures Balance(principal, MonthlyRate(annualRate), q, TotalPayments(years)) ==
      (MonthlyPayment(principal, annualRate, years).value - q) *
      GeomSum(1.0 + MonthlyRate(annualRate), TotalPayments(years))
  {
    NoResultIff(principal, annualRate, years);
    var r := MonthlyRate(annualRate);
    var n := TotalPayments(years);
    var p := MonthlyPayment(principal, annualRate, years).value;
    var s := GeomSum(1.0 + r, n);
    PaymentEquation(principal, annualRate, years);
    BalanceClosedForm(principal, r, q, n);
    assert p * s - q * s == (p - q) * s;
  }

  /** Where a payment is stored, the growth sum is not 0, since r times it is g - 1. */
  lemma GeomSumNonZero(annualRate: real, years: real)
    requires Payable(annualRate, years)
    ensures GeomSum(1.0 + MonthlyRate(annualRate), TotalPayments(years)) != 0.0
  {
    NoResultIff(0.0, annualRate, years);
    var b := 1.0 + MonthlyRate(annualRate);
    var n := TotalPayments(years);
    assert Pow(b, n) != 1.0;
    GeomSumIdentity(b, n);
  }

  /**
   * With a rate of 0 a level payment that repays the loan does exist
   * (principal / number of months), yet the calculator stores none.
   */
  lemma ZeroRateStraightLine(principal: real, years: real)
    requires WholeMonths(years) && years > 0.0
    ensures Balance(principal, 0.0, principal / (TotalPayments(years) as real), TotalPayments(years)) == 0.0
    ensures MonthlyPayment(principal, 0.0, years) == None
  {
    var n := TotalPayments(years);
    BalanceClosedForm(principal, 0.0, principal / (n as real), n);
    GeomSumOfOne(n);
    PowOfOne(n);
    ZeroRateHasNoResult(principal, years);
  }

  /**
   * The principal is the present value of the payments: n payments of the
   * stored amount, each discounted by 1 / (1 + r) per month, are worth exactly
   * the principal today.
   */
  lemma PrincipalIsPresentValue(principal: real, annualRate: real, years: real)
    requires WholeMonths(years) && years > 0.0 && annualRate > -1200.0 && annualRate != 0.0
    ensures MonthlyPayment(principal, annualRate, years).Some?
    ensures MonthlyPayment(principal, annualRate, years).value *
      DiscountSum(1.0 / (1.0 + MonthlyRate(annualRate)), TotalPayments(years)) == principal
  {
    var b := 1.0 + MonthlyRate(annualRate);
    var v := 1.0 / b;
    var n := TotalPayments(years);
    PaymentEquation(principal, annualRate, years);
    DiscountSumGrowth(v, b, n);
    Discounted(MonthlyPayment(principal, annualRate, years).value, DiscountSum(v, n),
      GeomSum(b, n), Pow(b, n), principal);
  }

  /** Discounting both sides of p * s == principal * g by g, where a * g == s. */
  lemma Discounted(p: real, a: real, s: real, g: real, principal: real)
    requires g != 0.0 && p * s == principal * g && a * g == s
    ensures p * a == principal
  {
    assert g * (p * a) == p * (a * g);
    assert g * (p * a) == g * principal;
    Cancel(g, p * a, principal);
  }

  /**
   * For a fixed positive principal and a positive term of whole months, a higher
   * positive rate gives a strictly higher payment.
   */
  lemma IncreasingInRate(principal: real, rate1: real, rate2: real, years: real)
    requires principal > 0.0 && 0.0 < rate1 < rate2 && years > 0.0 && WholeMonths(years)
    ensures MonthlyPayment(principal, rate1, years).Some?
    ensures MonthlyPayment(principal, rate2, years).Some?
    ensures MonthlyPayment(principal, rate1, years).value < MonthlyPayment(principal, rate2, years).value
  {
    PresentWhenValid(principal, rate1, years);
    PresentWhenValid(principal, rate2, years);
    var p1 := MonthlyPayment(principal, rate1, years).value;
    var p2 := MonthlyPayment(principal, rate2, years).value;
    var n := TotalPayments(years);
    var v1 := 1.0 / (1.0 + MonthlyRate(rate1));
    var v2 := 1.0 / (1.0 + MonthlyRate(rate2));
    Reciprocals(1.0 + MonthlyRate(rate1), 1.0 + MonthlyRate(rate2));
    PrincipalIsPresentValue(principal, rate1, years);
    PrincipalIsPresentValue(principal, rate2, years);
    DiscountSumIncreasing(v2, v1, n);
    var a1 := DiscountSum(v1, n);
    var a2 := DiscountSum(v2, n);
    assert p1 * a1 == p2 * a2;
    if p2 <= p1 {
      ProductLess(a2, a1, p2, p1);
    }
  }

  lemma ZeroProduct(x: real, y: real)
    requires y != 0.0
    ensures x * y == 0.0 <==> x == 0.0
  {
    if x != 0.0 {
      assert x * y / y == x;
    }
  }

  lemma Reciprocals(x: real, y: real)
    requires 0.0 < x < y
    ensures 0.0 < 1.0 / y < 1.0 / x
  {
    var u, w := 1.0 / y, 1.0 / x;
    assert u * y == 1.0 && w * x == 1.0;
    assert u > 0.0;
    assert u * x < u * y;
    assert u * x < w * x;
  }

  lemma Cancel(c: real, x: real, y: real)
    requires c != 0.0 && c * x == c * y
    ensures x == y
  {
    assert c * (x - y) == 0.0;
  }

  lemma ProductLess(x1: real, x2: real, y1: real, y2: real)
    requires 0.0 < x1 < x2 && 0.0 < y1 <= y2
    ensures 0.0 < x1 * y1 < x2 * y2
  {
    assert x1 * y1 < x2 * y1;
    assert x2 * y1 <= x2 * y2;
  }
}
