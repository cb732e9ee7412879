/**
 * The component's state: the three input fields and the stored monthly
 * payment, the edit handlers that overwrite one field each, and the effect
 * that recomputes the payment from all three current values.
 */
module Component {
  import opened Wrappers
  import opened Payment
  import opened FormSchema

  class MortgageCalculator {
    var amountMortg: real
    var interestRate: real
    /** In years; the model covers terms that are a whole number of months. */
    var loanTerm: real
    /** The stored result; None is the source's `null`, for which no payment line is shown. */
    var monthlyPayment: Option<real>
    /** The field-level messages that validating the current values reports at the last submission. */
    var errors: set<Issue>

    /** The stored payment is the formula applied to the current fields, and nothing else. */
    ghost predicate Valid()
      reads this
    {
      WholeMonths(loanTerm) &&
      monthlyPayment == MonthlyPayment(amountMortg, interestRate, loanTerm)
    }

    /** The values the form validates; the handlers keep them equal to the state. */
    function FormValues(): LoanInput
      reads this
    {
      LoanInput(amountMortg, interestRate, loanTerm)
    }

    /** Mounting with the given props; the effect then runs once on the initial values. */
    constructor (principal: real, annualRate: real, years: real)
      requires WholeMonths(years)
      ensures amountMortg == principal && interestRate == annualRate && loanTerm == years
      ensures errors == {}
      ensures Valid()
    {
      amountMortg, interestRate, loanTerm := principal, annualRate, years;
      errors := {};
      monthlyPayment := MonthlyPayment(principal, annualRate, years);
    }

    /** `calculateMonthlyPayment` as run by the effect: only the stored payment changes. */
    method Recompute()
      requires WholeMonths(loanTerm)
      modifies this`monthlyPayment
      ensures Valid()
    {
      monthlyPayment := MonthlyPayment(amountMortg, interestRate, loanTerm);
    }

    /** `form.handleSubmit(onSubmit)()`: validation records its messages; submitting only logs. */
    method Submit()
      modifies this`errors
      ensures errors == Validate(FormValues())
    {
      errors := Validate(FormValues());
    }

    method HandleAmountMortgChange(value: real)
      requires WholeMonths(loanTerm)
      modifies this
      ensures amountMortg == value
      ensures interestRate == old(interestRate) && loanTerm == old(loanTerm)
      ensures errors == Validate(FormValues())
      ensures Valid()
    {
      amountMortg := value;
      Submit();
      Recompute();
    }

    method HandleInterestRateChange(value: real)
      requires WholeMonths(loanTerm)
      modifies this
      ensures interestRate == value
      ensures amountMortg == old(amountMortg) && loanTerm == old(loanTerm)
      ensures errors == Validate(FormValues())
      ensures Valid()
    {
      interestRate := value;
      Submit();
      Recompute();
    }

    method HandleLoanTermChange(value: real)
      requires WholeMonths(value)
      modifies this
      ensures loanTerm == value
      ensures amountMortg == old(amountMortg) && interestRate == old(interestRate)
      ensures errors == Validate(FormValues())
      ensures Valid()
    {
      loanTerm := value;
      Submit();
      Recompute();
    }

    /** Whether the "Monthly Payment" line is rendered. */
    predicate ShowsPayment()
      reads this
      requires Valid()
      ensures ShowsPayment() <==>
        !(loanTerm == 0.0 || interestRate == 0.0 ||
          (interestRate == -2400.0 && TotalPayments(loanTerm) % 2 == 0) ||
          (loanTerm < 0.0 && interestRate == -1200.0))
    {
      NoResultIff(amountMortg, interestRate, loanTerm);
      monthlyPayment.Some?
    }
  }

  /**
   * Whatever the form accepts yields a payment line with a positive amount
   * larger than the first month's interest.
   */
  lemma AcceptedFormShowsPayment(x: LoanInput)
    requires Validate(x) == {}
    ensures WholeMonths(x.loanTerm)
    ensures MonthlyPayment(x.amountMortg, x.interestRate, x.loanTerm).Some?
    ensures MonthlyPayment(x.amountMortg, x.interestRate, x.loanTerm).value > 0.0
  {
    var n := x.loanTerm.Floor;
    assert x.loanTerm * 12.0 == (n * 12) as real;
    PresentWhenValid(x.amountMortg, x.interestRate, x.loanTerm);
  }

  /**
   * The calculator page's props, then an out-of-range rate, then the original
   * rate again: the invalid rate is reported on its field, a payment is still
   * computed for it, and going back restores the first payment exactly.
   */
  method EditScenario() returns (first: Option<real>, atInvalidRate: Option<real>,
                                 invalidErrors: set<Issue>, restored: Option<real>)
    ensures first.Some? && atInvalidRate.Some?
    ensures invalidErrors == {Issue(InterestRate, RateMaxMessage)}
    ensures restored == first
  {
    var c := new MortgageCalculator(100.0, 5.5, 1.0);
    first := c.monthlyPayment;
    PresentWhenValid(100.0, 5.5, 1.0);
    c.HandleInterestRateChange(150.0);
    atInvalidRate, invalidErrors := c.monthlyPayment, c.errors;
    PresentWhenValid(100.0, 150.0, 1.0);
    IssuesByField(c.FormValues());
    c.HandleInterestRateChange(5.5);
    restored := c.monthlyPayment;
  }

  /**
   * Typing a rate of 0: the rate's positive message is reported and no
   * payment line is shown, since the formula has no result at rate 0.
   */
  method ZeroRateEdit() returns (payment: Option<real>, rateErrors: set<Issue>)
    ensures payment == None
    ensures rateErrors == {Issue(InterestRate, RatePositiveMessage)}
  {
    var c := new MortgageCalculator(100.0, 5.5, 1.0);
    c.HandleInterestRateChange(0.0);
    payment, rateErrors := c.monthlyPayment, c.errors;
    ZeroRateHasNoResult(100.0, 1.0);
    IssuesByField(c.FormValues());
  }

  /**
   * Typing a term of a year and a half: the term's integer message is
   * reported, yet a payment over 18 months is stored and shown.
   */
  method FractionalTermEdit() returns (payment: Option<real>, termErrors: set<Issue>)
    ensures payment.Some? && payment.value > 0.0
    ensures termErrors == {Issue(LoanTerm, TermIntMessage)}
  {
    var c := new MortgageCalculator(100.0, 5.5, 1.0);
    assert WholeMonths(1.5) by {
      assert 1.5 * 12.0 == 18.0;
    }
    c.HandleLoanTermChange(1.5);
    payment, termErrors := c.monthlyPayment, c.errors;
    PresentWhenValid(100.0, 5.5, 1.5);
    assert !IsInteger(1.5) by {
      assert (1.5).Floor == 1;
    }
    IssuesByField(c.FormValues());
  }
}
