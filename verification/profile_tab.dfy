/** The profile tab `Profile.tsx`: display name and bio, filled from the
    stored profile and saved back without touching the other fields. */
module ProfileTab {
  import opened Js
  import opened UserDoc
  import opened AuthContext

  datatype ProfileForm = ProfileForm(displayName: string, bio: string, loading: bool)

  /** The effect on `userData`: each box takes the stored value or `''`;
      without a profile nothing changes. */
  function Init(form: ProfileForm, userData: Option<Doc>): (r: ProfileForm)
    ensures userData.None? ==> r == form
    ensures userData.Some? ==>
              && r.displayName == OrText(StrOf(userData, DisplayName), "")
              && r.bio == OrText(StrOf(userData, Bio), "")
              && r.loading == form.loading
  {
    if userData.None? then form
    else form.(displayName := OrText(StrOf(userData, DisplayName), ""), bio := OrText(StrOf(userData, Bio), ""))
  }

  /** The update `handleSaveProfile` sends: the trimmed display name and bio
      and nothing else. */
  function SavePayload(form: ProfileForm): (p: Doc)
    ensures p.Keys == {DisplayName, Bio}
    ensures p[DisplayName] == Str(Trim(form.displayName)) && p[Bio] == Str(Trim(form.bio))
  {
    map[DisplayName := Str(Trim(form.displayName)), Bio := Str(Trim(form.bio))]
  }

  /** Loading a stored profile and saving it unchanged is accepted when the
      stored display name is not empty, and merging the update leaves the
      document as it was, provided the stored name and bio carry no outer
      white space. */
  lemma InitThenSave(form: ProfileForm, data: Doc, name: string, bio: string)
    requires Holds(data, DisplayName, Str(name)) && Holds(data, Bio, Str(bio))
    requires Trim(name) == name && Trim(bio) == bio
    ensures var loaded := Init(form, Some(data));
      && (name != "" ==> !Blank(loaded.displayName))
      && Merge(Some(data), SavePayload(loaded)) == data
  {
    var p := SavePayload(Init(form, Some(data)));
    assert Merge(Some(data), p) == data + p;
    assert data + p == data;
  }

  datatype Saved = Saved(form: ProfileForm, backend: Backend, sent: Option<Doc>, alert: string)

  /** `handleSaveProfile`: refused for a blank display name, otherwise the
      payload goes to `updateProfileInfo` and loading ends. */
  function HandleSave(form: ProfileForm, b: Backend, user: Option<string>, authFails: bool, writeFails: bool): (r: Saved)
    ensures Blank(form.displayName) ==> r == Saved(form, b, None, "Error")
    ensures !Blank(form.displayName) ==> r.sent == Some(SavePayload(form)) && r.form == form.(loading := false)
    ensures !Blank(form.displayName) ==>
              r.backend == UpdateProfileInfo(b, user, SavePayload(form), authFails, writeFails).backend
    ensures r.alert == "Success" <==>
              !Blank(form.displayName) && (user.None? || UpdateProfileInfo(b, user, SavePayload(form), authFails, writeFails).wrote)
  {
    if Blank(form.displayName) then Saved(form, b, None, "Error")
    else
      var u := UpdateProfileInfo(b, user, SavePayload(form), authFails, writeFails);
      var alert := if user.None? || u.wrote then "Success" else "Error";
      Saved(form.(loading := false), u.backend, Some(SavePayload(form)), alert)
  }

  /** A save from this tab sets the display name everywhere but leaves the
      stored first and last names alone, so the display name need no longer
      read "first last". */
  lemma SaveKeepsNames(form: ProfileForm, b: Backend, u: string, authFails: bool, writeFails: bool)
    requires u in b.users
    ensures var r := HandleSave(form, b, Some(u), authFails, writeFails);
      r.alert == "Success" ==>
        && Holds(r.backend.users[u], DisplayName, Str(Trim(form.displayName)))
        && Holds(r.backend.auth[u], DisplayName, Str(Trim(form.displayName)))
        && (forall k :: k in b.users[u] && k != DisplayName && k != Bio ==> Holds(r.backend.users[u], k, b.users[u][k]))
  {
    var r := HandleSave(form, b, Some(u), authFails, writeFails);
    if r.alert == "Success" {
      UpdateKeepsOtherFields(b, u, SavePayload(form), authFails, writeFails);
    }
  }
}
