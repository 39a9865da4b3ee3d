/** The sign-in screen `SignIn.tsx`: two field rules, and a submit handler
    that runs both of them before deciding whether to call `signIn`. */
module SignIn {
  import opened Js
  import opened Patterns
  import opened Forms

  /** The screen's state: the two inputs, their error messages and the
      spinner flag. */
  datatype SignInForm = SignInForm(email: string, password: string, errors: Errors, loading: bool)

  /** The message `validateField(field, value)` computes: the shared email
      and password rules, and no message for any other field name. */
  function Rule(field: Field, value: string): string {
    match field
    case Email => EmailRule(value)
    case Password => PasswordRule(value)
    case _ => ""
  }

  /** `validateField(field, value)`: records the rule's message for `field`
      alone and answers whether it is empty. An address passes exactly when
      it has the worded shape, a password exactly when it is not all white
      space and has a `length` of at least six, and any other field always. */
  function ValidateField(errors: Errors, field: Field, value: string): (r: (Errors, bool))
    ensures r.0.Keys == errors.Keys + {field}
    ensures r.0[field] == Rule(field, value)
    ensures forall f :: f in errors && f != field ==> r.0[f] == errors[f]
    ensures r.1 <==> r.0[field] == ""
    ensures field == Email ==> (r.1 <==> EmailShape(value))
    ensures field == Password ==> (r.1 <==> !AllSpace(value) && Length(value) >= 6)
    ensures field != Email && field != Password ==> r.1
  {
    EmailRuleMeaning(value);
    PasswordRuleMeaning(value);
    Record(errors, field, Rule(field, value))
  }

  /** What `handleSignIn` leaves behind: the form, the credentials handed to
      `signIn` if it was called, and the alert shown if something threw. */
  datatype Attempt = Attempt(form: SignInForm, request: Option<(string, string)>, alert: Option<string>)

  /** `handleSignIn`. `signInError` is the outcome of the `signIn` call:
      `None` when it resolves, `Some(m)` when it throws an error whose
      `message` is `m` (`None` for a missing message). Both rules run
      before the `&&`, so both entries are refreshed on every submit. */
  function HandleSignIn(form: SignInForm, signInError: Option<Option<string>>): (r: Attempt)
    ensures r.request.Some? <==> EmailRule(form.email) == "" && PasswordRule(form.password) == ""
    ensures r.request.Some? ==> r.request.value == (form.email, form.password)
    ensures r.form.errors == form.errors[Email := EmailRule(form.email)][Password := PasswordRule(form.password)]
    ensures r.form.email == form.email && r.form.password == form.password
    ensures !r.form.loading
    ensures r.alert.Some? <==> r.request.Some? && signInError.Some?
    ensures r.alert.Some? ==> r.alert.value == OrText(signInError.value, "Login failed")
  {
    var loading := form.(loading := true);
    var byEmail := ValidateField(loading.errors, Email, loading.email);
    var byPassword := ValidateField(byEmail.0, Password, loading.password);
    var validated := loading.(errors := byPassword.0);
    if byEmail.1 && byPassword.1 then
      var alert := if signInError.Some? then Some(OrText(signInError.value, "Login failed")) else None;
      Attempt(validated.(loading := false), Some((form.email, form.password)), alert)
    else
      Attempt(validated.(loading := false), None, None)
  }

  /** `signIn` is reached exactly for an address of the worded shape and a
      password whose `length` is at least six and that is not all white space. */
  lemma SignInCalledIff(form: SignInForm, signInError: Option<Option<string>>)
    ensures HandleSignIn(form, signInError).request.Some?
            <==> EmailShape(form.email) && !AllSpace(form.password) && Length(form.password) >= 6
  {
    EmailRuleMeaning(form.email);
    PasswordRuleMeaning(form.password);
  }
}
