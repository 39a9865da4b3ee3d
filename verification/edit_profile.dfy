/** The profile editor `EditProfileScreen.tsx`: the form filled from the
    stored profile, and the save that requires both names and composes the
    display name from them. */
module EditProfile {
  import opened Js
  import opened UserDoc
  import opened AuthContext

  /** The editor's state. */
  datatype EditForm = EditForm(firstName: string, lastName: string, phoneNumber: string, bio: string, loading: bool)

  /** The effect on `userData`: each box takes the stored value, or `''`
      when it is missing, `null` or empty; without a profile nothing changes. */
  function Init(form: EditForm, userData: Option<Doc>): (r: EditForm)
    ensures userData.None? ==> r == form
    ensures userData.Some? ==>
              && r.firstName == OrText(StrOf(userData, FirstName), "")
              && r.lastName == OrText(StrOf(userData, LastName), "")
              && r.phoneNumber == OrText(StrOf(userData, PhoneNumber), "")
              && r.bio == OrText(StrOf(userData, Bio), "")
              && r.loading == form.loading
  {
    if userData.None? then form
    else form.(firstName := OrText(StrOf(userData, FirstName), ""),
               lastName := OrText(StrOf(userData, LastName), ""),
               phoneNumber := OrText(StrOf(userData, PhoneNumber), ""),
               bio := OrText(StrOf(userData, Bio), ""))
  }

  /** Loading a stored profile and saving it unchanged writes back exactly
      the stored names when they carry no outer white space. */
  lemma InitThenPayload(form: EditForm, data: Doc, first: string, last: string)
    requires Holds(data, FirstName, Str(first)) && Holds(data, LastName, Str(last))
    requires Trim(first) == first && Trim(last) == last
    ensures var p := SavePayload(Init(form, Some(data)));
      p[FirstName] == Str(first) && p[LastName] == Str(last) && p[DisplayName] == Str(first + " " + last)
  {
  }

  /** The save is refused: a name is blank. */
  predicate Rejected(form: EditForm) {
    Blank(form.firstName) || Blank(form.lastName)
  }

  /** The update `handleSave` sends: the trimmed fields and the display name
      composed of the trimmed names. */
  function SavePayload(form: EditForm): (p: Doc)
    ensures p.Keys == {FirstName, LastName, DisplayName, PhoneNumber, Bio}
    ensures p[FirstName] == Str(Trim(form.firstName)) && p[LastName] == Str(Trim(form.lastName))
    ensures p[DisplayName] == Str(p[FirstName].s + " " + p[LastName].s)
    ensures p[PhoneNumber] == Str(Trim(form.phoneNumber)) && p[Bio] == Str(Trim(form.bio))
  {
    map[FirstName := Str(Trim(form.firstName)), LastName := Str(Trim(form.lastName)),
        DisplayName := Str(Trim(form.firstName) + " " + Trim(form.lastName)),
        PhoneNumber := Str(Trim(form.phoneNumber)), Bio := Str(Trim(form.bio))]
  }

  /** What `handleSave` leaves behind. `alert` is the title of the alert
      shown: "Error" or "Success". */
  datatype Saved = Saved(form: EditForm, backend: Backend, sent: Option<Doc>, alert: string)

  /** `handleSave` for the signed-in `user`; `authFails` and `writeFails`
      are the outcomes of the two backend calls inside `updateProfileInfo`. */
  function HandleSave(form: EditForm, b: Backend, user: Option<string>, authFails: bool, writeFails: bool): (r: Saved)
    ensures Rejected(form) ==> r == Saved(form, b, None, "Error")
    ensures !Rejected(form) ==> r.sent == Some(SavePayload(form)) && r.form == form.(loading := false)
    ensures !Rejected(form) ==>
              r.backend == UpdateProfileInfo(b, user, SavePayload(form), authFails, writeFails).backend
    ensures r.alert == "Success" <==>
              !Rejected(form) && (user.None? || UpdateProfileInfo(b, user, SavePayload(form), authFails, writeFails).wrote)
  {
    if Rejected(form) then Saved(form, b, None, "Error")
    else
      var u := UpdateProfileInfo(b, user, SavePayload(form), authFails, writeFails);
      var alert := if user.None? || u.wrote then "Success" else "Error";
      Saved(form.(loading := false), u.backend, Some(SavePayload(form)), alert)
  }

  /** After a save that went through, the document's names are non-blank
      and trimmed, its display name is exactly "first last", and the auth
      profile carries the same display name. */
  lemma SaveComposesDisplayName(form: EditForm, b: Backend, u: string, authFails: bool, writeFails: bool)
    requires u in b.users
    ensures var r := HandleSave(form, b, Some(u), authFails, writeFails);
      r.alert == "Success" ==>
        var doc := r.backend.users[u];
        && Holds(doc, FirstName, Str(Trim(form.firstName))) && Trim(form.firstName) != ""
        && Holds(doc, LastName, Str(Trim(form.lastName))) && Trim(form.lastName) != ""
        && Holds(doc, DisplayName, Str(Trim(form.firstName) + " " + Trim(form.lastName)))
        && Holds(r.backend.auth[u], DisplayName, doc[DisplayName])
  {
    var r := HandleSave(form, b, Some(u), authFails, writeFails);
    if r.alert == "Success" {
      UpdateKeepsOtherFields(b, u, SavePayload(form), authFails, writeFails);
    }
  }

  /** With nobody signed in the save writes nothing yet reports success,
      since `updateProfileInfo` returns quietly. */
  lemma SuccessWithoutUser(form: EditForm, b: Backend, authFails: bool, writeFails: bool)
    requires !Rejected(form)
    ensures var r := HandleSave(form, b, None, authFails, writeFails);
      r.alert == "Success" && r.backend == b
  {
  }
}
