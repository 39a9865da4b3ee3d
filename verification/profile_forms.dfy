/** What the two profile editors (`EditProfileScreen.tsx` and
    `Profile.tsx`) share line for line: the bio box limited to a `length` of 160 and the
    photo upload and removal, both of which go through `updateProfileInfo`. */
module ProfileForms {
  import opened Js
  import opened UserDoc
  import opened Cloudinary
  import opened AuthContext

  /** The bio box's limit. */
  const BioLimit := 160

  /** `onChangeText` of the bio box: an edit is taken only when its
      `length`, in UTF-16 code units, fits. */
  function OnBioChange(bio: string, text: string): (r: string)
    ensures Length(text) <= BioLimit ==> r == text
    ensures Length(text) > BioLimit ==> r == bio
  {
    if Length(text) <= BioLimit then text else bio
  }

  /** The counter under the bio box shows its warning style. */
  predicate CounterAtMax(bio: string) {
    Length(bio) == BioLimit
  }

  /** The bio after a sequence of keystrokes. */
  function ApplyEdits(bio: string, edits: seq<string>): string
    decreases |edits|
  {
    if |edits| == 0 then bio else ApplyEdits(OnBioChange(bio, edits[0]), edits[1..])
  }

  /** A bio that starts within the limit stays within it whatever is
      typed, so the counter never reads more than 160. */
  lemma {:induction false} BioStaysWithinLimit(bio: string, edits: seq<string>)
    requires Length(bio) <= BioLimit
    ensures Length(ApplyEdits(bio, edits)) <= BioLimit
    decreases |edits|
  {
    if |edits| > 0 {
      BioStaysWithinLimit(OnBioChange(bio, edits[0]), edits[1..]);
    }
  }

  /** The edit that reaches the limit lights the counter; one that would
      pass it leaves both the bio and the counter as they were. */
  lemma CounterAfterEdit(bio: string, text: string)
    ensures CounterAtMax(OnBioChange(bio, text)) <==> Length(text) == BioLimit || (Length(text) > BioLimit && CounterAtMax(bio))
  {
  }

  /** What a photo action leaves behind: the backend, the update sent if
      any, and whether the success alert was shown. */
  datatype PhotoResult = PhotoResult(backend: Backend, sent: Option<Doc>, succeeded: bool)

  /** `uploadPhoto(uri)`: the profile is updated only once the upload has
      returned a URL; a failed upload sends nothing. */
  function UploadPhoto(b: Backend, user: Option<string>, upload: Upload, authFails: bool, writeFails: bool): (r: PhotoResult)
    ensures r.sent.Some? <==> upload.Uploaded?
    ensures r.sent.Some? ==> r.sent.value == map[PhotoURL := Str(upload.url)]
    ensures upload.UploadFailed? ==> r.backend == b && !r.succeeded
  {
    if upload.UploadFailed? then PhotoResult(b, None, false)
    else
      var u := UpdateProfileInfo(b, user, map[PhotoURL := Str(upload.url)], authFails, writeFails);
      PhotoResult(u.backend, Some(map[PhotoURL := Str(upload.url)]), user.None? || u.wrote)
  }

  /** The removal confirmed: `updateProfileInfo({ photoURL: null })`. */
  function RemovePhoto(b: Backend, user: Option<string>, authFails: bool, writeFails: bool): (r: PhotoResult)
    ensures r.sent == Some(map[PhotoURL := Null])
  {
    var u := UpdateProfileInfo(b, user, map[PhotoURL := Null], authFails, writeFails);
    PhotoResult(u.backend, Some(map[PhotoURL := Null]), user.None? || u.wrote)
  }

  /** A removal that went through leaves `null` as the photo in both the
      auth profile and the document, and every other field of the document
      as it was. */
  lemma RemovePhotoClears(b: Backend, u: string, authFails: bool, writeFails: bool)
    requires u in b.users
    ensures var r := RemovePhoto(b, Some(u), authFails, writeFails);
      r.succeeded ==>
        && Holds(r.backend.users[u], PhotoURL, Null)
        && Holds(r.backend.auth[u], PhotoURL, Null)
        && forall k :: k in b.users[u] && k != PhotoURL ==> Holds(r.backend.users[u], k, b.users[u][k])
  {
    UpdateKeepsOtherFields(b, u, map[PhotoURL := Null], authFails, writeFails);
  }

  /** An upload that went through sets the new URL as the photo in both
      the auth profile and the document. */
  lemma UploadPhotoSets(b: Backend, u: string, url: string, authFails: bool, writeFails: bool)
    requires u in b.users
    ensures var r := UploadPhoto(b, Some(u), Uploaded(url), authFails, writeFails);
      r.succeeded ==>
        && Holds(r.backend.users[u], PhotoURL, Str(url))
        && Holds(r.backend.auth[u], PhotoURL, Str(url))
  {
    UpdateKeepsOtherFields(b, u, map[PhotoURL := Str(url)], authFails, writeFails);
  }
}
