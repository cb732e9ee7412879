# Mortgage calculator: a Dafny model

This project models the one component of the LoanCalculator web app that
holds logic, `components/mortgage_calculator.tsx`. It has three parts.

- **The payment formula** (`calculateMonthlyPayment`). The monthly rate is
  r = rate / 1200 and there are n = 12 · years payments. The term is a
  real number of years; the model covers every term that is a whole number
  of months (half a year is 6 payments). The payment is
  P · r · (1 + r)^n / ((1 + r)^n − 1), and `null` is stored when that value
  is not finite. Module `Payment`, file `payment.dfy`.
- **The validation schema** (`formSchema`). The principal must be positive.
  The rate must be positive and at most 100. The term must be positive and
  a whole number. Each failing check gives its own message on its own
  field. Module `FormSchema`, file `schema.dfy`. The schema is stored as
  data, and `Validate` reads that data the way the validation library
  reads the declared object.
- **The component state** (`useState` / `useEffect` and the three edit
  handlers). Module `Component`, file `calculator.dfy`. The class
  `MortgageCalculator` has the three input fields, the stored
  `monthlyPayment` and the form's messages. Each handler overwrites one
  field, validates, and then recomputes the payment from all three
  current values.

`amortization.dfy` (module `Amortization`) gives a separate, month-by-month
definition of the loan balance and of the present value of the payments.
Its lemmas prove that the closed formula gives the one level payment that
brings the balance to zero at the end of the term. They also prove that
the principal is the present value of the payments, and that a higher rate
means a higher payment.

All arithmetic uses exact reals. Over exact reals, "not finite" can only
come from a division by zero. That happens in the final division when
(1 + r)^n = 1, or inside `Math.pow` when the base is 0 and the exponent is
negative. `Payment.NoResultIff` names exactly which inputs give no payment.

Two consequences of the code as written:

- The code has no straight-line branch (principal / months) for a rate of
  0: that rate gives 0/0 and `null`. `Amortization.ZeroRateStraightLine`
  shows both sides: a level payment that clears the loan exists, yet no
  payment is stored. Validation does not gate the recompute, so a user who
  types 0 sees no payment line and the rate's positive message
  (`Component.ZeroRateEdit`).
- For the calculator page's props (100 at 5.5 % over one year) the formula
  gives 8.5837… (`Payment.CalculatorPageExample`), which the two-decimal
  display shows as 8.58.

## Model

| member | source | states |
|---|---|---|
| `Payment.Pow` | components/mortgage_calculator.tsx:85-87 | a natural power of a non-zero base is non-zero, and of a positive base is positive |
| `Payment.IntPow` | components/mortgage_calculator.tsx:85-87 | `Math.pow` with an integer exponent has no finite value exactly when the exponent is negative and the base is 0; a negative power is the reciprocal of the positive one |
| `Payment.MonthlyRate` | components/mortgage_calculator.tsx:81 | the monthly rate is the annual percentage divided by 1200, so 1200 times it gives the annual percentage back |
| `Payment.TotalPayments` | components/mortgage_calculator.tsx:82 | for a term of whole months, the number of payments is exactly 12 times the term in years |
| `Payment.MonthlyPayment` | components/mortgage_calculator.tsx:80-92 | the stored payment or `null`; its contract is stated by `NoResultIff` (when there is none), `RepaysExactly` (what it is) and the lemmas below |
| `Payment.AnnuityPayment` | components/mortgage_calculator.tsx:84-89 | numerator / denominator at growth g; `AnnuityTimesSum` and `AnnuityPaymentScales` state its properties |
| `Payment.NoResultIff` | components/mortgage_calculator.tsx:80-92 | no payment is stored exactly when the term is 0, the rate is 0, the rate is −2400 % and the number of months is even, or the term is negative and the rate is −1200 %; the principal never matters |
| `Payment.ZeroRateHasNoResult` | components/mortgage_calculator.tsx:81-91 | a rate of exactly 0 stores no payment, because there is no straight-line fallback |
| `Payment.ZeroTermHasNoResult` | components/mortgage_calculator.tsx:82-91 | a term of 0 stores no payment, because (1 + r)^0 − 1 = 0 |
| `Payment.PresentWhenValid` | components/mortgage_calculator.tsx:84-91 | a positive principal, a positive rate and a positive term of whole months always give a payment, and it is larger than the first month's interest P · r > 0 |
| `Payment.ScalesWithPrincipal` | components/mortgage_calculator.tsx:84-89 | scaling the principal by k scales the payment by k; whether there is a payment does not depend on the principal |
| `Payment.AnnuityPaymentScales` | components/mortgage_calculator.tsx:84-89 | numerator / denominator is linear in the principal |
| `Payment.IncreasingInPrincipal` | components/mortgage_calculator.tsx:84-89 | for a positive rate and a positive term, a larger principal gives a strictly larger payment |
| `Payment.CalculatorPageExample` | app/calculator/page.tsx:12-16 | the page's props 100 / 5.5 % / 1 year give a payment between 8.5835 and 8.5840 |
| `Amortization.PaymentEquation` | components/mortgage_calculator.tsx:84-89 | the n payments, each grown to the end of the term, add up to the principal grown over the term |
| `Amortization.StoredPayment` | components/mortgage_calculator.tsx:84-91 | for a positive term and a rate outside the no-result cases (`Payment.Payable`), (1 + r)^n ≠ 1 and the stored payment is numerator / denominator at that power |
| `Amortization.RepaysExactly` | components/mortgage_calculator.tsx:84-91 | a level payment q brings the month-by-month balance to zero after the last month if and only if q is the stored payment |
| `Amortization.FinalBalance` | components/mortgage_calculator.tsx:84-89 | paying q instead of the stored payment p leaves (p − q) times the growth sum owed at the end |
| `Amortization.GeomSumNonZero` | components/mortgage_calculator.tsx:87-91 | for a positive term and a rate outside the no-result cases (`Payment.Payable`), the growth sum 1 + b + … + b^(n−1) is not 0 |
| `Amortization.ZeroRateStraightLine` | components/mortgage_calculator.tsx:81-91 | at rate 0, paying principal / months clears the loan, yet no payment is stored |
| `Amortization.PrincipalIsPresentValue` | components/mortgage_calculator.tsx:81-89 | for a rate above −1200 % other than 0 and a positive term of whole months, the stored payments, each discounted by 1 / (1 + r) per month, are worth exactly the principal |
| `Amortization.AnnuityTimesSum` | components/mortgage_calculator.tsx:84-89 | numerator / denominator times any s with r · s = g − 1 is the principal times g |
| `Amortization.IncreasingInRate` | components/mortgage_calculator.tsx:81-89 | for a positive principal and a positive term, a higher positive rate gives a strictly higher payment |
| `FormSchema.Schema` | components/mortgage_calculator.tsx:20-32 | the three fields' checks and messages, as data; what they report is stated by `Validate` and `IssuesByField` |
| `FormSchema.IsInteger` | components/mortgage_calculator.tsx:31 | zod's integer check: the value equals its floor; `IssuesByField` and `Component.FractionalTermEdit` show what it reports |
| `FormSchema.Passes` | components/mortgage_calculator.tsx:20-32 | whether one check holds for a value; `IssuesByField` states it for every check of the schema |
| `FormSchema.SchemaIssues` | components/mortgage_calculator.tsx:20-32 | every message it reports is on one of the schema's fields |
| `FormSchema.CheckIssues` | components/mortgage_calculator.tsx:20-32 | every message that one field's checks report is placed on that field |
| `FormSchema.Validate` | components/mortgage_calculator.tsx:20-32 | the form reports no message exactly when principal > 0, 0 < rate ≤ 100, term > 0 and the term is a whole number |
| `FormSchema.IssuesByField` | components/mortgage_calculator.tsx:20-32 | each field's messages are exactly those of its own failing checks: a rate ≤ 0 gets the positive message, a rate > 100 the maximum message (so 100 is accepted), a term that is not a whole number gets the integer message; no other messages occur |
| `Component.MortgageCalculator.Valid` | components/mortgage_calculator.tsx:54-62 | the class invariant the effect keeps: the term is whole months and the stored payment is the formula of the three current fields |
| `Component.MortgageCalculator.FormValues` | components/mortgage_calculator.tsx:95-111 | the values the form validates, equal to the state because each handler copies its value into the form |
| `Component.MortgageCalculator.constructor` | components/mortgage_calculator.tsx:54-62 | mounting stores the props and, after the first effect run, the payment computed from them; no form messages yet |
| `Component.MortgageCalculator.Recompute` | components/mortgage_calculator.tsx:60-62 | only the stored payment changes, and afterwards it is the formula applied to the three current fields |
| `Component.MortgageCalculator.Submit` | components/mortgage_calculator.tsx:74-77 | the form's messages become those of validating the current values; nothing else changes, since submitting only logs |
| `Component.MortgageCalculator.HandleAmountMortgChange` | components/mortgage_calculator.tsx:95-99 | overwrites the principal only, records the validation messages, and stores the formula of all three current values, whether or not they validate |
| `Component.MortgageCalculator.HandleInterestRateChange` | components/mortgage_calculator.tsx:101-105 | overwrites the rate only, records the validation messages, and stores the formula of all three current values, whether or not they validate |
| `Component.MortgageCalculator.HandleLoanTermChange` | components/mortgage_calculator.tsx:107-111 | overwrites the term only, records the validation messages, and stores the formula of all three current values, whether or not they validate |
| `Component.MortgageCalculator.ShowsPayment` | components/mortgage_calculator.tsx:120-124 | the payment line is shown exactly when the inputs are outside the no-result cases of `NoResultIff` |
| `Component.AcceptedFormShowsPayment` | components/mortgage_calculator.tsx:20-32 | every input the form accepts gives a shown, positive payment |
| `Component.ZeroRateEdit` | components/mortgage_calculator.tsx:101-105 | typing a rate of 0 stores no payment and reports exactly the rate's positive message |
| `Component.FractionalTermEdit` | components/mortgage_calculator.tsx:107-111 | typing a term of 1.5 years reports exactly the term's integer message, yet a positive payment over 18 months is stored and shown |
| `Component.EditScenario` | components/mortgage_calculator.tsx:95-111 | starting from the page's props and moving the rate to 150 % gives exactly the rate's maximum message, yet a payment is still stored; moving the rate back restores the first payment exactly |

The handlers require only that the term they leave behind is whole months,
not `Valid()`, before they run. Their
postconditions are the same whatever payment was stored before. So the
stored payment depends only on the current three values, and no hidden
state builds up from earlier edits.

## Left out

- IEEE-754 behaviour is not modelled. This covers `Math.pow` overflowing
  to Infinity (Infinity / Infinity, hence `null`), rounding that makes
  1 + r equal 1 for tiny rates, and `NaN` from `parseFloat` on an empty
  field, which the schema's `z.number()` would reject.
- `Component.MortgageCalculator.HandleLoanTermChange`: a term that is not a
  whole number of months (say 0.1 years) is outside the model, since its
  payment needs `Math.pow` with a fractional exponent, which exact reals
  cannot express here; the handler and the constructor require a term of
  whole months. Such terms, like all fractional ones, still get the
  integer message from the schema, which takes any real term.
- `toFixed(2)` formatting of the shown amount, and all JSX rendering
  (cards, inputs, labels, the redirect button and its props).
- The first render before the effect runs, when `monthlyPayment` is still
  `null`. The constructor stands for mount plus the first effect run.
  React's scheduling of effects and renders is also left out.
- The validation and form libraries' internals. This includes resolver
  plumbing, the order of messages, how many messages a field displays,
  and the form's own copy of the values. The handlers keep that copy equal
  to the state, so `FormValues` reads the state.
- `console.log` in `onSubmit`.
- app/page.tsx, a landing page with a theme toggle and a link to
  /calculator, and the layout of app/calculator/page.tsx, which mounts the
  component with props 100 / 5.5 / 1; those props appear in
  `CalculatorPageExample`, `EditScenario`, `ZeroRateEdit` and
  `FractionalTermEdit`.
- No closed numeric example with a long term is proved, since the exact
  power over hundreds of months is too large to evaluate in a proof. Long
  terms are covered by `PresentWhenValid`, `IncreasingInPrincipal` and
  `IncreasingInRate`.
