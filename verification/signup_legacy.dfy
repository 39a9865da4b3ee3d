/** The older sign-up screen `Signup.tsx`: looser per-field rules, and a
    submit handler that validates the fields in a fixed order, stops at the
    first failure, and clears the form after every submission that passed. */
module Signup {
  import opened Js
  import opened Patterns
  import opened Dates
  import opened Forms
  import SignupScreen

  /** Which kind of value each field's rule is called with; the date rule
      accepts any argument because it never looks at it. */
  predicate Fits(field: Field, v: Input) {
    match field
    case Gender => v.Choice?
    case Dob => true
    case Terms => v.Flag?
    case _ => v.Text?
  }

  /** The name and phone rule here: non-blank is all that is asked. */
  function RequiredRule(s: string, what: string): string {
    if Blank(s) then what + " is required *" else ""
  }

  /** The gender rule `if (value === null)`: only `null` fails. */
  function GenderRule(g: Option<string>): string {
    if g.None? then "Please select gender" else ""
  }

  /** The date rule, which judges the stored date of birth. */
  function DobRule(dob: Date, today: Date): string {
    if CalculateAge(dob, today) < 18 then "You must be at least 18 years old to register" else ""
  }

  /** The message `validateField(field, value)` computes. The confirmation
      is compared with the password state, and the date rule judges the
      stored `dob` state, not its argument. */
  function Rule(field: Field, v: Input, form: SignupForm, today: Date): string
    requires Fits(field, v)
  {
    match field
    case FirstName => RequiredRule(v.text, "First Name")
    case LastName => RequiredRule(v.text, "Last Name")
    case Email => EmailRule(v.text)
    case Password => PasswordRule(v.text)
    case ConfirmPassword => ConfirmRule(v.text, form.password)
    case Number => RequiredRule(v.text, "Phone Number")
    case Gender => GenderRule(v.choice)
    case Dob => DobRule(form.dob, today)
    case Terms => TermsRule(v.flag)
  }

  /** `validateField(field, value)`: records the rule's message for `field`
      alone and answers whether it is empty, with each field's verdict; the
      confirmation is judged against the password state and the date
      against the stored `dob`. */
  function ValidateField(errors: Errors, field: Field, v: Input, form: SignupForm, today: Date): (r: (Errors, bool))
    requires Fits(field, v)
    ensures r.0.Keys == errors.Keys + {field}
    ensures r.0[field] == Rule(field, v, form, today)
    ensures forall f :: f in errors && f != field ==> r.0[f] == errors[f]
    ensures r.1 <==> r.0[field] == ""
    ensures field == FirstName || field == LastName || field == Number ==> (r.1 <==> !AllSpace(v.text))
    ensures field == Email ==> (r.1 <==> EmailShape(v.text))
    ensures field == Password ==> (r.1 <==> !AllSpace(v.text) && Length(v.text) >= 6)
    ensures field == ConfirmPassword ==> (r.1 <==> !AllSpace(v.text) && v.text == form.password)
    ensures field == Gender ==> (r.1 <==> v.choice.Some?)
    ensures field == Dob ==> (r.1 <==> CalculateAge(form.dob, today) >= 18)
    ensures field == Terms ==> (r.1 <==> v.flag)
  {
    RulePasses(field, v, form, today);
    Record(errors, field, Rule(field, v, form, today))
  }

  /** When each field's rule gives no message, in terms of its value and,
      for the confirmation and the date, of the form state. */
  lemma RulePasses(field: Field, v: Input, form: SignupForm, today: Date)
    requires Fits(field, v)
    ensures var ok := Rule(field, v, form, today) == "";
      && (field == FirstName || field == LastName || field == Number ==> (ok <==> !AllSpace(v.text)))
      && (field == Email ==> (ok <==> EmailShape(v.text)))
      && (field == Password ==> (ok <==> !AllSpace(v.text) && Length(v.text) >= 6))
      && (field == ConfirmPassword ==> (ok <==> !AllSpace(v.text) && v.text == form.password))
      && (field == Gender ==> (ok <==> v.choice.Some?))
      && (field == Dob ==> (ok <==> CalculateAge(form.dob, today) >= 18))
      && (field == Terms ==> (ok <==> v.flag))
  {
    match field
    case FirstName | LastName | Number => BlankIffAllSpace(v.text);
    case Email => EmailRuleMeaning(v.text);
    case Password => PasswordRuleMeaning(v.text);
    case ConfirmPassword => ConfirmRuleMeaning(v.text, form.password);
    case _ =>
  }

  /** Names and the phone number need only be non-blank, and the gender
      only non-null: digits in a name, letters in a phone number and the
      empty gender string all pass. */
  lemma LooseRules(s: string, what: string, g: Option<string>)
    ensures RequiredRule(s, what) == "" <==> !AllSpace(s)
    ensures GenderRule(g) == "" <==> g.Some?
  {
    BlankIffAllSpace(s);
  }

  /** The date rule's verdict depends on the stored date of birth alone. */
  lemma DobRuleIgnoresArgument(v: Input, w: Input, form: SignupForm, today: Date)
    ensures Rule(Dob, v, form, today) == "" <==> !Before(today, Anniversary(form.dob, 18))
    ensures Rule(Dob, v, form, today) == Rule(Dob, w, form, today)
  {
    AgeAtLeast(form.dob, today, 18);
  }

  /** Whatever the newer screen accepts for the names, the phone number
      and the gender, this screen accepts too. */
  lemma ScreenRulesRefineLegacy(s: string, g: Option<string>)
    ensures SignupScreen.NameRule(s, "First Name") == "" ==> RequiredRule(s, "First Name") == ""
    ensures SignupScreen.NameRule(s, "Last Name") == "" ==> RequiredRule(s, "Last Name") == ""
    ensures SignupScreen.NumberRule(s) == "" ==> RequiredRule(s, "Phone Number") == ""
    ensures SignupScreen.GenderRule(g) == "" ==> GenderRule(g) == ""
  {
  }

  /** The converse fails for the gender: the empty choice passes here and
      fails on the newer screen. */
  lemma EmptyGenderPasses()
    ensures GenderRule(Some("")) == ""
    ensures SignupScreen.GenderRule(Some("")) != ""
  {
  }

  /** A name with a digit in it passes here and fails on the newer screen. */
  lemma DigitInName()
    ensures RequiredRule("R2", "First Name") == ""
    ensures SignupScreen.NameRule("R2", "First Name") != ""
  {
    var s := "R2";
    assert !IsSpace(s[0]);
    assert !IsAsciiLetter(s[1]) && !IsSpace(s[1]);
    BlankIffAllSpace(s);
  }

  /** A phone number with a letter in it passes here and fails on the newer screen. */
  lemma LetterInNumber()
    ensures RequiredRule("x", "Phone Number") == ""
    ensures SignupScreen.NumberRule("x") != ""
  {
    var s := "x";
    assert !IsSpace(s[0]) && !IsDigit(s[0]);
    BlankIffAllSpace(s);
  }

  /** The order in which `handleSignup` validates. */
  const Order: seq<Field> := [FirstName, LastName, Email, Password, ConfirmPassword, Number, Gender, Dob, Terms]

  /** The value `handleSignup` passes for each field; the date rule is
      handed `userAge >= 18`. */
  function ValueOf(form: SignupForm, field: Field, today: Date): (v: Input)
    ensures Fits(field, v)
  {
    match field
    case FirstName => Text(form.firstName)
    case LastName => Text(form.lastName)
    case Email => Text(form.email)
    case Password => Text(form.password)
    case ConfirmPassword => Text(form.confirmPassword)
    case Number => Text(form.number)
    case Gender => Choice(form.gender)
    case Dob => Flag(CalculateAge(form.dob, today) >= 18)
    case Terms => Flag(form.termsAccepted)
  }

  /** The messages `handleSignup`'s calls would record for `fields`, in order. */
  function MessagesOf(form: SignupForm, fields: seq<Field>, today: Date): (msgs: seq<string>)
    ensures |msgs| == |fields|
    ensures forall i :: 0 <= i < |fields| ==> msgs[i] == Rule(fields[i], ValueOf(form, fields[i], today), form, today)
  {
    if |fields| == 0 then []
    else [Rule(fields[0], ValueOf(form, fields[0], today), form, today)] + MessagesOf(form, fields[1..], today)
  }

  lemma {:induction false} MessagesOfIndex(form: SignupForm, fields: seq<Field>, today: Date, i: int)
    requires 0 <= i < |fields|
    ensures MessagesOf(form, fields, today)[i] == Rule(fields[i], ValueOf(form, fields[i], today), form, today)
    decreases |fields|
  {
    if i > 0 {
      MessagesOfIndex(form, fields[1..], today, i - 1);
    }
  }

  /** `Order` names every field once. */
  lemma OrderDistinct()
    ensures Distinct(Order)
    ensures forall f: Field :: f in Order
  {
    forall f: Field ensures f in Order {
      match f
      case FirstName => assert Order[0] == f;
      case LastName => assert Order[1] == f;
      case Email => assert Order[2] == f;
      case Password => assert Order[3] == f;
      case ConfirmPassword => assert Order[4] == f;
      case Number => assert Order[5] == f;
      case Gender => assert Order[6] == f;
      case Dob => assert Order[7] == f;
      case Terms => assert Order[8] == f;
    }
  }

  /** The position of the first non-empty message, or `|msgs|` when all are empty. */
  function FirstFailure(msgs: seq<string>): (k: nat)
    ensures k <= |msgs|
    ensures forall i :: 0 <= i < k ==> msgs[i] == ""
    ensures k < |msgs| ==> msgs[k] != ""
  {
    if |msgs| == 0 then 0
    else if msgs[0] != "" then 0
    else 1 + FirstFailure(msgs[1..])
  }

  /** How many `validateField` calls an `&&` chain makes: up to and
      including the first failing one. */
  function Reached(msgs: seq<string>): nat {
    var k := FirstFailure(msgs);
    if k < |msgs| then k + 1 else k
  }

  /** An `&&` chain of `validateField` calls over distinct `fields`, the
      i-th call producing `msgs[i]`: each call records its message, and the
      chain stops after the first non-empty one. The answer is true exactly
      when every message is empty; the fields reached carry their messages
      and every other entry keeps its old one. */
  function RunChain(errors: Errors, fields: seq<Field>, msgs: seq<string>): (r: (Errors, bool))
    requires |msgs| == |fields| && Distinct(fields)
    ensures r.1 <==> forall i :: 0 <= i < |msgs| ==> msgs[i] == ""
    ensures forall f :: f in r.0 <==> f in errors || f in fields[..Reached(msgs)]
    ensures forall i :: 0 <= i < Reached(msgs) ==> r.0[fields[i]] == msgs[i]
    ensures forall f :: f in errors && f !in fields[..Reached(msgs)] ==> r.0[f] == errors[f]
    decreases |fields|
  {
    if |fields| == 0 then (errors, true)
    else
      var step := Record(errors, fields[0], msgs[0]);
      if !step.1 then step
      else
        var rest := RunChain(step.0, fields[1..], msgs[1..]);
        assert fields[..Reached(msgs)] == [fields[0]] + fields[1..][..Reached(msgs[1..])];
        rest
  }

  /** A chain over all the fields in which every call passes leaves every
      message empty. */
  lemma ChainClearsAll(errors: Errors, fields: seq<Field>, msgs: seq<string>)
    requires |msgs| == |fields| && Distinct(fields)
    requires forall f: Field :: f in fields
    requires forall i :: 0 <= i < |msgs| ==> msgs[i] == ""
    ensures forall f :: f in RunChain(errors, fields, msgs).0 ==> RunChain(errors, fields, msgs).0[f] == ""
  {
    var r := RunChain(errors, fields, msgs);
    assert Reached(msgs) == |fields|;
    assert fields[..|fields|] == fields;
    forall f | f in r.0 ensures r.0[f] == "" {
      assert f in fields;
      var i :| 0 <= i < |fields| && fields[i] == f;
    }
  }

  /** What `handleSignup` leaves behind: the new form state, the request it
      sent to `signUp` if any, and whether that call succeeded. */
  datatype Submission = Submission(form: SignupForm, request: Option<(string, string, Info)>, succeeded: bool)

  /** `handleSignup` once the messages of its calls over `fields` are
      known (the app validates `Order`); `signUpThrows` is the outcome of the
      `signUp` call and `today` stands for `new Date()`. */
  function Submit(form: SignupForm, fields: seq<Field>, msgs: seq<string>, today: Date, signUpThrows: bool): (r: Submission)
    requires |msgs| == |fields| && Distinct(fields)
    ensures r.request.Some? <==> forall i :: 0 <= i < |msgs| ==> msgs[i] == ""
    ensures r.request.Some? ==> r.request.value == (form.email, form.password, InfoOf(form))
    ensures r.succeeded <==> r.request.Some? && !signUpThrows
    ensures r.form.termsAccepted == form.termsAccepted
    ensures r.request.Some? && (forall f: Field :: f in fields) ==>
              forall f :: f in r.form.errors ==> r.form.errors[f] == ""
  {
    var chain := RunChain(form.errors, fields, msgs);
    if !chain.1 then
      Submission(form.(errors := chain.0), None, false)
    else
      assert (forall f: Field :: f in fields) ==> forall f :: f in chain.0 ==> chain.0[f] == "" by {
        if forall f: Field :: f in fields {
          ChainClearsAll(form.errors, fields, msgs);
        }
      }
      var cleared := form.(firstName := "", lastName := "", email := "", password := "",
                           confirmPassword := "", gender := None, dob := today, number := "",
                           errors := chain.0, loading := false);
      Submission(cleared, Some((form.email, form.password, InfoOf(form))), !signUpThrows)
  }

  /** `handleSignup`: the chain of `validateField` calls in `Order`, then
      `signUp` and the reset when it passed. */
  function HandleSignup(form: SignupForm, today: Date, signUpThrows: bool): Submission {
    OrderDistinct();
    Submit(form, Order, MessagesOf(form, Order, today), today, signUpThrows)
  }

  /** Over any distinct list of fields, `signUp` is called exactly when
      every field in it passes its rule. */
  lemma CalledIffAllRulesPass(form: SignupForm, fields: seq<Field>, today: Date, signUpThrows: bool)
    requires Distinct(fields)
    ensures Submit(form, fields, MessagesOf(form, fields, today), today, signUpThrows).request.Some?
            <==> forall i :: 0 <= i < |fields| ==> Rule(fields[i], ValueOf(form, fields[i], today), form, today) == ""
  {
    forall i | 0 <= i < |fields| {
      MessagesOfIndex(form, fields, today, i);
    }
  }

  /** `signUp` is called exactly when each of the nine fields, in `Order`,
      passes its rule. */
  lemma SignUpCalledIffAllPass(form: SignupForm, today: Date, signUpThrows: bool)
    ensures HandleSignup(form, today, signUpThrows).request.Some?
            <==> forall i :: 0 <= i < |Order| ==> Rule(Order[i], ValueOf(form, Order[i], today), form, today) == ""
  {
    OrderDistinct();
    CalledIffAllRulesPass(form, Order, today, signUpThrows);
  }

  /** Whether `field`'s rule passes on the value `handleSignup` hands it. */
  predicate Passes(form: SignupForm, field: Field, today: Date) {
    Rule(field, ValueOf(form, field, today), form, today) == ""
  }

  lemma AllOfOrder(form: SignupForm, today: Date)
    ensures (forall i :: 0 <= i < |Order| ==> Passes(form, Order[i], today))
            <==> && Passes(form, FirstName, today) && Passes(form, LastName, today)
                 && Passes(form, Email, today) && Passes(form, Password, today)
                 && Passes(form, ConfirmPassword, today) && Passes(form, Number, today)
                 && Passes(form, Gender, today) && Passes(form, Dob, today)
                 && Passes(form, Terms, today)
  {
    assert Order[0] == FirstName && Order[1] == LastName && Order[2] == Email;
    assert Order[3] == Password && Order[4] == ConfirmPassword && Order[5] == Number;
    assert Order[6] == Gender && Order[7] == Dob && Order[8] == Terms;
  }

  /** What the name and phone rules on `handleSignup`'s values ask of the form. */
  lemma RequiredPassMeaning(form: SignupForm, today: Date)
    ensures Passes(form, FirstName, today) <==> !AllSpace(form.firstName)
    ensures Passes(form, LastName, today) <==> !AllSpace(form.lastName)
    ensures Passes(form, Number, today) <==> !AllSpace(form.number)
  {
    BlankIffAllSpace(form.firstName);
    BlankIffAllSpace(form.lastName);
    BlankIffAllSpace(form.number);
  }

  /** What the email, password and confirmation rules ask of the form. */
  lemma CredentialsPassMeaning(form: SignupForm, today: Date)
    ensures Passes(form, Email, today) <==> EmailShape(form.email)
    ensures Passes(form, Password, today) <==> !AllSpace(form.password) && Length(form.password) >= 6
    ensures Passes(form, ConfirmPassword, today) <==> !AllSpace(form.confirmPassword) && form.confirmPassword == form.password
  {
    EmailRuleMeaning(form.email);
    PasswordRuleMeaning(form.password);
    ConfirmRuleMeaning(form.confirmPassword, form.password);
  }

  /** What the gender, date and terms rules ask of the form. */
  lemma ChoicesPassMeaning(form: SignupForm, today: Date)
    ensures Passes(form, Gender, today) <==> form.gender.Some?
    ensures Passes(form, Dob, today) <==> CalculateAge(form.dob, today) >= 18
    ensures Passes(form, Terms, today) <==> form.termsAccepted
  {
  }

  /** The same gate field by field: `signUp` is called exactly when both
      names and the phone number are non-blank, the address has the email
      shape, the password has at least six UTF-16 units and is repeated,
      a gender (possibly `''`) is chosen, the stored date of birth is at
      least 18 years back and the terms are accepted. */
  lemma SignUpCalledIffFieldsPass(form: SignupForm, today: Date, signUpThrows: bool)
    ensures HandleSignup(form, today, signUpThrows).request.Some?
            <==> && !AllSpace(form.firstName) && !AllSpace(form.lastName)
                 && EmailShape(form.email)
                 && !AllSpace(form.password) && Length(form.password) >= 6
                 && !AllSpace(form.confirmPassword) && form.confirmPassword == form.password
                 && !AllSpace(form.number) && form.gender.Some?
                 && CalculateAge(form.dob, today) >= 18 && form.termsAccepted
  {
    var called := HandleSignup(form, today, signUpThrows).request.Some?;
    SignUpCalledIffAllPass(form, today, signUpThrows);
    assert called <==> forall i :: 0 <= i < |Order| ==> Passes(form, Order[i], today);
    AllOfOrder(form, today);
    RequiredPassMeaning(form, today);
    CredentialsPassMeaning(form, today);
    ChoicesPassMeaning(form, today);
  }

  /** A submission that passes every rule clears the typed fields, the
      gender and the date of birth (to `today`) whether `signUp` succeeded
      or threw, leaves every error empty, and keeps the terms checkbox. */
  lemma ValidSubmissionResets(form: SignupForm, fields: seq<Field>, msgs: seq<string>, today: Date, signUpThrows: bool)
    requires |msgs| == |fields| && Distinct(fields)
    requires forall f: Field :: f in fields
    ensures var r := Submit(form, fields, msgs, today, signUpThrows);
      r.request.Some? ==>
        && r.form.firstName == "" && r.form.lastName == "" && r.form.email == ""
        && r.form.password == "" && r.form.confirmPassword == "" && r.form.number == ""
        && r.form.gender == None && r.form.dob == today && !r.form.loading
        && r.form.termsAccepted == form.termsAccepted
        && (forall f :: f in r.form.errors ==> r.form.errors[f] == "")
  {
  }

  /** A submission that fails a rule keeps every typed value and does not
      call `signUp`; the fields before the failing one get empty messages,
      the failing one its message, and the fields after it keep theirs. */
  lemma InvalidSubmissionStops(form: SignupForm, fields: seq<Field>, msgs: seq<string>, today: Date, signUpThrows: bool)
    requires |msgs| == |fields| && Distinct(fields)
    ensures var r := Submit(form, fields, msgs, today, signUpThrows);
      var k := FirstFailure(msgs);
      r.request.None? ==>
        && r.form == form.(errors := r.form.errors)
        && k < |fields|
        && r.form.errors[fields[k]] == msgs[k] != ""
        && (forall i :: 0 <= i < k ==> r.form.errors[fields[i]] == "")
        && (forall i :: k < i < |fields| && fields[i] in form.errors ==>
              r.form.errors[fields[i]] == form.errors[fields[i]])
  {
  }
}
