/** State shared by the form screens: the field names of the sign-up forms,
    the per-field error record, and the values `validateField` receives. */
module Forms {
  import opened Js
  import opened Patterns
  import opened Dates

  /** The keys of the `errors` object (the sign-in form uses only `Email`
      and `Password`). */
  datatype Field = FirstName | LastName | Email | Password | ConfirmPassword | Number | Gender | Dob | Terms

  /** `errors`: one message per field, `""` meaning no error. */
  type Errors = map<Field, string>

  /** The initial `errors` state of both sign-up screens: every message empty. */
  const NoErrors: Errors := map[FirstName := "", LastName := "", Email := "", Password := "",
                                 ConfirmPassword := "", Number := "", Gender := "", Dob := "", Terms := ""]

  /** The argument `value: any` of `validateField`, by the type the caller passes. */
  datatype Input = Text(text: string) | Choice(choice: Option<string>) | Day(date: Date) | Flag(flag: bool)

  /** `setErrors(prev => ({ ...prev, [field]: error }))` followed by
      `return error === ''`: only the entry for `field` changes, and the
      answer says whether that entry is now empty. */
  function Record(errors: Errors, field: Field, error: string): (r: (Errors, bool))
    ensures r.0.Keys == errors.Keys + {field}
    ensures r.0[field] == error
    ensures forall f :: f in errors && f != field ==> r.0[f] == errors[f]
    ensures r.1 <==> r.0[field] == ""
  {
    (errors[field := error], error == "")
  }

  /** The state of a sign-up screen (`SignupScreen.tsx` and `Signup.tsx`
      keep the same hooks). */
  datatype SignupForm = SignupForm(
    firstName: string,
    lastName: string,
    email: string,
    password: string,
    confirmPassword: string,
    number: string,
    gender: Option<string>,
    dob: Date,
    termsAccepted: bool,
    errors: Errors,
    loading: bool)

  /** The record both sign-up screens hand to `signUp`:
      `{ firstName, lastName, phoneNumber: number, gender, dateOfBirth: dob }`. */
  datatype Info = Info(firstName: string, lastName: string, phoneNumber: string, gender: Option<string>, dateOfBirth: Date)

  function InfoOf(form: SignupForm): Info {
    Info(form.firstName, form.lastName, form.number, form.gender, form.dob)
  }

  /** The email rule, identical on both sign-up screens and the sign-in
      screen: blank input is "required", otherwise the regex must match. */
  function EmailRule(s: string): string {
    if Blank(s) then "Email is required *"
    else if !MatchesEmail(s) then "Please enter a valid email address"
    else ""
  }

  /** The password rule, identical on all three screens: blank input is
      "required", otherwise a `length` of at least six UTF-16 code units. */
  function PasswordRule(s: string): string {
    if Blank(s) then "Password is required *"
    else if Length(s) < 6 then "Password must be at least 6 characters"
    else ""
  }

  /** The confirmation rule of both sign-up screens, against the password state. */
  function ConfirmRule(s: string, password: string): string {
    if Blank(s) then "Please confirm your password *"
    else if s != password then "Passwords do not match"
    else ""
  }

  /** The terms rule of both sign-up screens. */
  function TermsRule(accepted: bool): string {
    if !accepted then "You must agree to the Terms of Service" else ""
  }

  /** Blank input gets the "required" message; anything else passes
      exactly when it has the address shape. */
  lemma EmailRuleMeaning(s: string)
    ensures AllSpace(s) ==> EmailRule(s) == "Email is required *"
    ensures EmailRule(s) == "" <==> EmailShape(s)
  {
    BlankIffAllSpace(s);
    EmailRegexShape(s);
    if MatchesEmail(s) { EmailNotBlank(s); }
  }

  /** Blank input gets the "required" message; anything else passes
      exactly when its `length` is at least six. */
  lemma PasswordRuleMeaning(s: string)
    ensures AllSpace(s) ==> PasswordRule(s) == "Password is required *"
    ensures PasswordRule(s) == "" <==> !AllSpace(s) && Length(s) >= 6
    ensures !AllSpace(s) && Length(s) < 6 ==> PasswordRule(s) == "Password must be at least 6 characters"
  {
    BlankIffAllSpace(s);
  }

  lemma ConfirmRuleMeaning(s: string, password: string)
    ensures ConfirmRule(s, password) == "" <==> !AllSpace(s) && s == password
  {
    BlankIffAllSpace(s);
  }
}
