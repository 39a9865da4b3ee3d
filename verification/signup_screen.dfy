/** The validation of `SignupScreen.tsx`: per-field rules run on every edit,
    and the `isFormValid` gate that enables the submit button. */
module SignupScreen {
  import opened Js
  import opened Patterns
  import opened Dates
  import opened Forms

  /** Which kind of value each field's rule is called with. */
  predicate Fits(field: Field, v: Input) {
    match field
    case Gender => v.Choice?
    case Dob => v.Day?
    case Terms => v.Flag?
    case _ => v.Text?
  }

  /** The name rule: blank is "required", otherwise letters and white space only. */
  function NameRule(s: string, what: string): string {
    if Blank(s) then what + " is required *"
    else if !MatchesName(s) then what + " must contain letters only"
    else ""
  }

  /** The phone rule: blank is "required", otherwise digits only. */
  function NumberRule(s: string): string {
    if Blank(s) then "Phone Number is required *"
    else if !MatchesNumber(s) then "Phone Number must contain numbers only"
    else ""
  }

  /** The gender rule `if (!value)`: `null` and `''` both fail. */
  function GenderRule(g: Option<string>): string {
    if !Truthy(g) then "Please select gender *" else ""
  }

  /** The date rule: the chosen birth date must make the user 18 today. */
  function DobRule(birth: Date, today: Date): string {
    if CalculateAge(birth, today) < 18 then "Users must be at least 18 years old *" else ""
  }

  /** The error message `validateField(field, value)` computes; `password`
      is the current password state the confirmation is compared with. */
  function Rule(field: Field, v: Input, password: string, today: Date): string
    requires Fits(field, v)
  {
    match field
    case FirstName => NameRule(v.text, "First Name")
    case LastName => NameRule(v.text, "Last Name")
    case Email => EmailRule(v.text)
    case Password => PasswordRule(v.text)
    case ConfirmPassword => ConfirmRule(v.text, password)
    case Number => NumberRule(v.text)
    case Gender => GenderRule(v.choice)
    case Dob => DobRule(v.date, today)
    case Terms => TermsRule(v.flag)
  }

  /** Blank is "required"; past that, a name is rejected exactly when some
      character is neither an ASCII letter nor white space. */
  lemma NameRuleMeaning(s: string, what: string)
    ensures AllSpace(s) ==> NameRule(s, what) == what + " is required *"
    ensures !AllSpace(s) ==>
              (NameRule(s, what) != "" <==> exists i :: 0 <= i < |s| && !IsAsciiLetter(s[i]) && !IsSpace(s[i]))
  {
    BlankIffAllSpace(s);
  }

  /** Blank is "required"; past that, a phone number is rejected exactly
      when some character is not a digit. Passing means non-empty digits. */
  lemma NumberRuleMeaning(s: string)
    ensures AllSpace(s) ==> NumberRule(s) == "Phone Number is required *"
    ensures !AllSpace(s) ==> (NumberRule(s) != "" <==> exists i :: 0 <= i < |s| && !('0' <= s[i] <= '9'))
    ensures NumberRule(s) == "" <==> |s| > 0 && forall i :: 0 <= i < |s| ==> '0' <= s[i] <= '9'
  {
    BlankIffAllSpace(s);
    if |s| > 0 && MatchesNumber(s) { assert !IsSpace(s[0]); }
  }

  /** The date rule passes exactly from the 18th birthday on, the birthday
      itself included. */
  lemma DobRuleMeaning(birth: Date, today: Date)
    ensures DobRule(birth, today) == "" <==> !Before(today, Anniversary(birth, 18))
    ensures DobRule(birth, Anniversary(birth, 18)) == ""
  {
    AgeAtLeast(birth, today, 18);
  }

  /** `validateField(field, value)`: records the rule's message for `field`
      alone and answers whether that message is empty, with each field's
      verdict in terms of its value. */
  function ValidateField(errors: Errors, field: Field, v: Input, password: string, today: Date): (r: (Errors, bool))
    requires Fits(field, v)
    ensures r.0.Keys == errors.Keys + {field}
    ensures r.0[field] == Rule(field, v, password, today)
    ensures forall f :: f in errors && f != field ==> r.0[f] == errors[f]
    ensures r.1 <==> r.0[field] == ""
    ensures field == FirstName || field == LastName ==> (r.1 <==> !AllSpace(v.text) && MatchesName(v.text))
    ensures field == Email ==> (r.1 <==> EmailShape(v.text))
    ensures field == Password ==> (r.1 <==> !AllSpace(v.text) && Length(v.text) >= 6)
    ensures field == ConfirmPassword ==> (r.1 <==> !AllSpace(v.text) && v.text == password)
    ensures field == Number ==> (r.1 <==> |v.text| > 0 && MatchesNumber(v.text))
    ensures field == Gender ==> (r.1 <==> Truthy(v.choice))
    ensures field == Dob ==> (r.1 <==> CalculateAge(v.date, today) >= 18)
    ensures field == Terms ==> (r.1 <==> v.flag)
  {
    RulePasses(field, v, password, today);
    Record(errors, field, Rule(field, v, password, today))
  }

  /** When each field's rule gives no message, in terms of its value. */
  lemma RulePasses(field: Field, v: Input, password: string, today: Date)
    requires Fits(field, v)
    ensures var ok := Rule(field, v, password, today) == "";
      && (field == FirstName || field == LastName ==> (ok <==> !AllSpace(v.text) && MatchesName(v.text)))
      && (field == Email ==> (ok <==> EmailShape(v.text)))
      && (field == Password ==> (ok <==> !AllSpace(v.text) && Length(v.text) >= 6))
      && (field == ConfirmPassword ==> (ok <==> !AllSpace(v.text) && v.text == password))
      && (field == Number ==> (ok <==> |v.text| > 0 && MatchesNumber(v.text)))
      && (field == Gender ==> (ok <==> Truthy(v.choice)))
      && (field == Dob ==> (ok <==> CalculateAge(v.date, today) >= 18))
      && (field == Terms ==> (ok <==> v.flag))
  {
    match field
    case FirstName | LastName => BlankIffAllSpace(v.text);
    case Email => EmailRuleMeaning(v.text);
    case Password => PasswordRuleMeaning(v.text);
    case ConfirmPassword => ConfirmRuleMeaning(v.text, password);
    case Number => NumberRuleMeaning(v.text);
    case _ =>
  }

  /** `isFormValid`, recomputed from the form state and today's date. */
  predicate IsFormValid(form: SignupForm, today: Date) {
    && !Blank(form.firstName)
    && !Blank(form.lastName)
    && MatchesEmail(form.email)
    && Length(form.password) >= 6
    && form.password == form.confirmPassword
    && MatchesNumber(form.number)
    && !Blank(form.number)
    && form.gender.Some?
    && CalculateAge(form.dob, today) >= 18
    && form.termsAccepted
    && forall f :: f in form.errors ==> form.errors[f] == ""
  }

  /** What an enabled submit button guarantees about the form. */
  lemma FormValidGuarantees(form: SignupForm, today: Date)
    requires IsFormValid(form, today)
    ensures Length(form.password) >= 6 && form.password == form.confirmPassword
    ensures |form.number| > 0 && forall i :: 0 <= i < |form.number| ==> '0' <= form.number[i] <= '9'
    ensures form.gender.Some?
    ensures !Before(today, Anniversary(form.dob, 18))
    ensures form.termsAccepted
    ensures EmailShape(form.email)
    ensures forall f :: f in form.errors ==> form.errors[f] == ""
  {
    AgeAtLeast(form.dob, today, 18);
    EmailRegexShape(form.email);
    BlankIffAllSpace(form.number);
  }

  /** The submit button is enabled only for a valid form that is not
      already submitting. */
  predicate SubmitEnabled(form: SignupForm, today: Date) {
    IsFormValid(form, today) && !form.loading
  }
}
