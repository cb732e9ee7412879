/**
 * The form's validation schema (`formSchema`): each of the three number fields
 * carries a chain of checks, and every failing check yields a field-level
 * message. The schema is kept as data and `Validate` interprets it, as the
 * validation library does with the declared object.
 */
module FormSchema {

  datatype Field = AmountMortg | InterestRate | LoanTerm

  /** One refinement of a number field, with the message reported when it fails. */
  datatype Check =
    | Positive(message: string)
    | Max(bound: real, message: string)
    | Int(message: string)

  datatype FieldSchema = FieldSchema(field: Field, checks: seq<Check>)

  /** A field-level validation message. */
  datatype Issue = Issue(field: Field, message: string)

  /** The values the form holds for its three fields. */
  datatype LoanInput = LoanInput(amountMortg: real, interestRate: real, loanTerm: real)

  const AmountPositiveMessage: string := "Amount of the mortgage must be a positive number."
  const RatePositiveMessage: string := "Interest rate must be a positive number."
  const RateMaxMessage: string := "Interest rate must be less than or equal to 100.0"
  const TermPositiveMessage: string := "Loan term must be a positive number."
  const TermIntMessage: string := "Loan term must be an integer."

  const Schema: seq<FieldSchema> := [
    FieldSchema(AmountMortg, [Positive(AmountPositiveMessage)]),
    FieldSchema(InterestRate, [Positive(RatePositiveMessage), Max(100.0, RateMaxMessage)]),
    FieldSchema(LoanTerm, [Positive(TermPositiveMessage), Int(TermIntMessage)])
  ]

  function ValueOf(x: LoanInput, f: Field): real
  {
    match f
    case AmountMortg => x.amountMortg
    case InterestRate => x.interestRate
    case LoanTerm => x.loanTerm
  }

  predicate IsInteger(v: real)
  {
    v == v.Floor as real
  }

  predicate Passes(c: Check, v: real)
  {
    match c
    case Positive(_) => v > 0.0
    case Max(bound, _) => v <= bound
    case Int(_) => IsInteger(v)
  }

  /** The messages of the checks in `checks` that the value v of field f fails. */
  function CheckIssues(f: Field, checks: seq<Check>, v: real): (issues: set<Issue>)
    ensures forall i | i in issues :: i.field == f
  {
    if checks == [] then {}
    else (if Passes(checks[0], v) then {} else {Issue(f, checks[0].message)}) + CheckIssues(f, checks[1..], v)
  }

  /** The messages of every failing check of every field in `schema`. */
  function SchemaIssues(schema: seq<FieldSchema>, x: LoanInput): (issues: set<Issue>)
    ensures forall i | i in issues :: exists k | 0 <= k < |schema| :: schema[k].field == i.field
  {
    if schema == [] then {}
    else CheckIssues(schema[0].field, schema[0].checks, ValueOf(x, schema[0].field)) + SchemaIssues(schema[1..], x)
  }

  /** Every message of every check that the input fails; no check stops the others. */
  function Validate(x: LoanInput): (issues: set<Issue>)
    ensures issues == {} <==>
      x.amountMortg > 0.0 && 0.0 < x.interestRate <= 100.0 && x.loanTerm > 0.0 && IsInteger(x.loanTerm)
  {
    IssuesByField(x);
    SchemaIssues(Schema, x)
  }

  /** The messages reported against one field. */
  function IssuesOf(issues: set<Issue>, f: Field): set<Issue>
  {
    set i | i in issues && i.field == f
  }

  /**
   * What the schema reports, field by field: each field's messages are
   * exactly those of its own failing checks, and there are no others.
   */
  lemma IssuesByField(x: LoanInput)
    ensures var issues := SchemaIssues(Schema, x);
      && IssuesOf(issues, AmountMortg) ==
        (if x.amountMortg > 0.0 then {} else {Issue(AmountMortg, AmountPositiveMessage)})
      && IssuesOf(issues, InterestRate) ==
        (if x.interestRate > 0.0 then {} else {Issue(InterestRate, RatePositiveMessage)}) +
        (if x.interestRate <= 100.0 then {} else {Issue(InterestRate, RateMaxMessage)})
      && IssuesOf(issues, LoanTerm) ==
        (if x.loanTerm > 0.0 then {} else {Issue(LoanTerm, TermPositiveMessage)}) +
        (if IsInteger(x.loanTerm) then {} else {Issue(LoanTerm, TermIntMessage)})
      && issues == IssuesOf(issues, AmountMortg) + IssuesOf(issues, InterestRate) + IssuesOf(issues, LoanTerm)
  {
    var amount := CheckIssues(AmountMortg, Schema[0].checks, x.amountMortg);
    var rate := CheckIssues(InterestRate, Schema[1].checks, x.interestRate);
    var term := CheckIssues(LoanTerm, Schema[2].checks, x.loanTerm);
    assert SchemaIssues(Schema, x) == amount + rate + term by {
      assert SchemaIssues(Schema, x) == amount + SchemaIssues(Schema[1..], x);
      assert SchemaIssues(Schema[1..], x) == rate + SchemaIssues(Schema[2..], x);
      assert SchemaIssues(Schema[2..], x) == term + SchemaIssues(Schema[3..], x);
    }
    AtMostTwoChecks(AmountMortg, Schema[0].checks, x.amountMortg);
    AtMostTwoChecks(InterestRate, Schema[1].checks, x.interestRate);
    AtMostTwoChecks(LoanTerm, Schema[2].checks, x.loanTerm);
    var issues := amount + rate + term;
    assert IssuesOf(issues, AmountMortg) == amount;
    assert IssuesOf(issues, InterestRate) == rate;
    assert IssuesOf(issues, LoanTerm) == term;
  }

  lemma AtMostTwoChecks(f: Field, checks: seq<Check>, v: real)
    requires 1 <= |checks| <= 2
    ensures CheckIssues(f, checks, v) ==
      (if Passes(checks[0], v) then {} else {Issue(f, checks[0].message)}) +
      (if |checks| == 1 || Passes(checks[1], v) then {} else {Issue(f, checks[1].message)})
  {
    assert CheckIssues(f, checks, v) ==
      (if Passes(checks[0], v) then {} else {Issue(f, checks[0].message)}) + CheckIssues(f, checks[1..], v);
    if |checks| == 2 {
      assert checks[1..][0] == checks[1] && checks[1..][1..] == [];
    }
  }
}
