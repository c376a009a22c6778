/** The deposit form schema: amount, optional phone number and payment method. */
module Validation {
  import opened Base
  import opened DepositTypes

  /** The default minimum and maximum deposit, used when the environment sets neither. */
  const DEFAULT_MIN_AMOUNT: real := 10000.0
  const DEFAULT_MAX_AMOUNT: real := 100000000.0

  datatype AmountLimits = AmountLimits(min: real, max: real)

  const DEFAULT_LIMITS := AmountLimits(DEFAULT_MIN_AMOUNT, DEFAULT_MAX_AMOUNT)

  // ---------------------------------------------------------------------------------------------
  // amount

  /**
   * The raw form value of the amount field. `Missing` is `null` or `undefined`; a number may be NaN
   * (`None`); `OtherValue` is any value that is neither a string nor a number.
   */
  datatype RawAmount = Missing | Text(text: string) | Number(n: Option<real>) | OtherValue

  /**
   * The preprocess step. `parseFloat` stands for JavaScript's `parseFloat`, `None` being NaN.
   * The result is `None` where the step returns `undefined`.
   */
  function PreprocessAmount(raw: RawAmount, parseFloat: string -> Option<real>): (num: Option<real>) {
    match raw
    case Missing => None
    case Text(s) => if s == "" then None else parseFloat(s)
    case Number(n) => n
    case OtherValue => None
  }

  datatype AmountIssue = AmountRequired | BelowMinimum | AboveMaximum | NotPositive

  /**
   * The issues the amount field reports, in the order the schema checks them. A missing number stops
   * at the required error; the minimum and maximum checks do not stop the positivity refinement.
   */
  function AmountIssues(num: Option<real>, limits: AmountLimits): seq<AmountIssue> {
    match num
    case None => [AmountRequired]
    case Some(x) =>
      (if x < limits.min then [BelowMinimum] else [])
      + (if x > limits.max then [AboveMaximum] else [])
      + (if x > 0.0 then [] else [NotPositive])
  }

  /** The amount is accepted exactly when it is a number within both limits and positive. */
  lemma AmountAcceptedIff(num: Option<real>, limits: AmountLimits)
    ensures AmountIssues(num, limits) == [] <==>
            num.Some? && limits.min <= num.value <= limits.max && num.value > 0.0
  {
    if num.Some? && !(limits.min <= num.value <= limits.max && num.value > 0.0) {
      assert |AmountIssues(num, limits)| > 0;
    }
  }

  /** Each issue is reported at most once, and a missing amount reports nothing but that it is required. */
  lemma AmountIssuesShape(num: Option<real>, limits: AmountLimits)
    ensures num.None? ==> AmountIssues(num, limits) == [AmountRequired]
    ensures num.Some? ==> AmountRequired !in AmountIssues(num, limits)
    ensures |AmountIssues(num, limits)| <= 3
    ensures forall i, j :: 0 <= i < j < |AmountIssues(num, limits)| ==>
              AmountIssues(num, limits)[i] != AmountIssues(num, limits)[j]
  {
  }

  /** With a positive minimum the positivity refinement never fails on its own. */
  lemma PositivityImpliedByMinimum(num: Option<real>, limits: AmountLimits)
    requires limits.min > 0.0
    ensures NotPositive in AmountIssues(num, limits) ==> BelowMinimum in AmountIssues(num, limits)
  {
  }

  /** A non-positive amount under the default limits reports both the minimum and the positivity issue. */
  lemma NonPositiveReportsTwice(x: real)
    requires x <= 0.0
    ensures AmountIssues(Some(x), DEFAULT_LIMITS) == [BelowMinimum, NotPositive]
  {
  }

  // ---------------------------------------------------------------------------------------------
  // phone_number

  /** `/^08\d{9,11}$/`: the text "08" followed by nine to eleven digits and nothing else. */
  ghost predicate PhonePattern(s: string) {
    exists rest :: s == "08" + rest && 9 <= |rest| <= 11 && AllDigits(rest)
  }

  /** The pattern read as lengths and characters, the way the form checks it: 11 to 13 characters, "08" then digits. */
  predicate PhoneShape(s: string) {
    11 <= |s| <= 13 && s[0] == '0' && s[1] == '8' && AllDigits(s[2..])
  }

  lemma PhonePatternIff(s: string)
    ensures PhonePattern(s) <==> PhoneShape(s)
  {
    if PhoneShape(s) {
      assert s == "08" + s[2..];
    }
    if PhonePattern(s) {
      var rest :| s == "08" + rest && 9 <= |rest| <= 11 && AllDigits(rest);
      assert s[2..] == rest;
    }
  }

  /** The optional phone number passes when absent, empty, or matching the pattern (see `PhonePatternIff`). */
  predicate PhoneNumberValid(phone: Option<string>) {
    phone.None? || phone.value == "" || PhoneShape(phone.value)
  }

  /** A non-empty phone number is accepted exactly when it matches the pattern; it then has 11 to 13 characters. */
  lemma PhoneAcceptedIff(s: string)
    requires s != ""
    ensures PhoneNumberValid(Some(s)) <==> PhonePattern(s)
    ensures PhoneNumberValid(Some(s)) ==> 11 <= |s| <= 13
  {
    PhonePatternIff(s);
  }

  /**
   * The form's hint promises 10 to 12 digits, but the pattern counts 11 to 13: a 10-digit number is
   * refused and a 13-digit one accepted.
   */
  lemma PhoneHintExamples()
    ensures !PhoneNumberValid(Some("0812345678"))
    ensures PhoneNumberValid(Some("0812345678901"))
  {
    var s := "0812345678901";
    assert AllDigits(s[2..]);
  }

  // ---------------------------------------------------------------------------------------------
  // payment_method and the whole form

  datatype PaymentMethodIssue = PaymentMethodRequired | NotAPaymentMethod

  function PaymentMethodIssues(raw: Option<string>): seq<PaymentMethodIssue> {
    if raw.None? then [PaymentMethodRequired]
    else if ParsePaymentMethod(raw.value).None? then [NotAPaymentMethod]
    else []
  }

  /** The raw form values; a phone number or method that is not a string is not modelled. */
  datatype RawDepositForm = RawDepositForm(amount: RawAmount, phoneNumber: Option<string>, paymentMethod: Option<string>)

  /** The parsed form: the phone number is passed through as given. */
  datatype DepositFormData = DepositFormData(amount: real, phoneNumber: Option<string>, paymentMethod: PaymentMethod)

  datatype FormIssue = Amount(issue: AmountIssue) | PhoneFormat | PaymentMethodField(pm: PaymentMethodIssue)

  datatype FormResult = Valid(data: DepositFormData) | Invalid(issues: seq<FormIssue>)

  /** Every field is checked and all issues are collected, field by field in schema order. */
  function FormIssues(form: RawDepositForm, parseFloat: string -> Option<real>, limits: AmountLimits): seq<FormIssue> {
    var amountIssues := AmountIssues(PreprocessAmount(form.amount, parseFloat), limits);
    var methodIssues := PaymentMethodIssues(form.paymentMethod);
    seq(|amountIssues|, i requires 0 <= i < |amountIssues| => Amount(amountIssues[i]))
    + (if PhoneNumberValid(form.phoneNumber) then [] else [PhoneFormat])
    + seq(|methodIssues|, i requires 0 <= i < |methodIssues| => PaymentMethodField(methodIssues[i]))
  }

  /** `depositFormSchema.safeParse`. */
  function ValidateDepositForm(form: RawDepositForm, parseFloat: string -> Option<real>, limits: AmountLimits): (r: FormResult)
    ensures r.Invalid? ==> |r.issues| > 0
  {
    var issues := FormIssues(form, parseFloat, limits);
    if issues != [] then Invalid(issues)
    else
      var num := PreprocessAmount(form.amount, parseFloat);
      var pm := ParsePaymentMethod(form.paymentMethod.value);
      Valid(DepositFormData(num.value, form.phoneNumber, pm.value))
  }

  /** The form is valid exactly when each field is, and the data then holds the parsed values. */
  lemma ValidateIff(form: RawDepositForm, parseFloat: string -> Option<real>, limits: AmountLimits)
    ensures var num := PreprocessAmount(form.amount, parseFloat);
            ValidateDepositForm(form, parseFloat, limits).Valid? <==>
              num.Some? && limits.min <= num.value <= limits.max && num.value > 0.0
              && PhoneNumberValid(form.phoneNumber)
              && form.paymentMethod.Some? && ParsePaymentMethod(form.paymentMethod.value).Some?
    ensures var r := ValidateDepositForm(form, parseFloat, limits);
            r.Valid? ==>
              Some(r.data.amount) == PreprocessAmount(form.amount, parseFloat)
              && r.data.phoneNumber == form.phoneNumber
              && form.paymentMethod == Some(Name(r.data.paymentMethod))
  {
    var num := PreprocessAmount(form.amount, parseFloat);
    AmountAcceptedIff(num, limits);
    var amountIssues := AmountIssues(num, limits);
    var issues := FormIssues(form, parseFloat, limits);
    if amountIssues != [] {
      assert issues[0] == Amount(amountIssues[0]);
    }
    if !PhoneNumberValid(form.phoneNumber) {
      assert PhoneFormat in issues;
    }
    var methodIssues := PaymentMethodIssues(form.paymentMethod);
    if methodIssues != [] {
      assert issues[|issues| - 1] == PaymentMethodField(methodIssues[0]);
    }
    if ValidateDepositForm(form, parseFloat, limits).Valid? {
      ParseNameRoundTrip(ParsePaymentMethod(form.paymentMethod.value).value, form.paymentMethod.value);
    }
  }

  /**
   * An amount the preprocess step turns into `undefined` ("", null, undefined, NaN, a value that is
   * neither string nor number, or text that `parseFloat` cannot read) is rejected as missing, and a
   * usable number never is.
   */
  lemma UnusableAmountIsRequired(form: RawDepositForm, parseFloat: string -> Option<real>, limits: AmountLimits)
    ensures var unusable := form.amount == Missing || form.amount == Text("") || form.amount == OtherValue
                            || form.amount == Number(None)
                            || (form.amount.Text? && parseFloat(form.amount.text).None?);
            Amount(AmountRequired) in FormIssues(form, parseFloat, limits) <==> unusable
    ensures Amount(AmountRequired) in FormIssues(form, parseFloat, limits) ==>
              ValidateDepositForm(form, parseFloat, limits).Invalid?
              && Amount(AmountRequired) in ValidateDepositForm(form, parseFloat, limits).issues
  {
    var num := PreprocessAmount(form.amount, parseFloat);
    var amountIssues := AmountIssues(num, limits);
    var methodIssues := PaymentMethodIssues(form.paymentMethod);
    var a := seq(|amountIssues|, i requires 0 <= i < |amountIssues| => Amount(amountIssues[i]));
    var b: seq<FormIssue> := if PhoneNumberValid(form.phoneNumber) then [] else [PhoneFormat];
    var c := seq(|methodIssues|, i requires 0 <= i < |methodIssues| => PaymentMethodField(methodIssues[i]));
    var issues := FormIssues(form, parseFloat, limits);
    assert issues == a + b + c;
    assert Amount(AmountRequired) !in b + c;
    if AmountRequired in amountIssues {
      var k :| 0 <= k < |amountIssues| && amountIssues[k] == AmountRequired;
      assert a[k] == Amount(AmountRequired);
    }
    if Amount(AmountRequired) in a {
      var k :| 0 <= k < |a| && a[k] == Amount(AmountRequired);
      assert amountIssues[k] == AmountRequired;
    }
    AmountIssuesShape(num, limits);
  }
}
