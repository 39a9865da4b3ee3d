/** The post composer `CreatePost.tsx`: the empty-post guard shared with the
    button, the optional image upload, and the new post record. */
module CreatePost {
  import opened Js
  import opened UserDoc
  import opened Posts
  import opened Cloudinary

  /** Nothing to post: blank text and no picked image. */
  predicate EmptyPost(text: string, image: Option<string>) {
    Blank(text) && !Truthy(image)
  }

  /** The post button's `disabled` prop. */
  predicate ButtonDisabled(loading: bool, text: string, image: Option<string>) {
    loading || EmptyPost(text, image)
  }

  /** The document `addDoc` writes: counters at zero, the trimmed text, the
      uploaded image's URL or `null`, and the author's name or
      `'Anonymous'` and photo or `null`. */
  function NewPost(userData: Option<Doc>, text: string, imageUrl: Option<string>): (p: Post)
    ensures p.likesCount == 0 && p.commentsCount == 0 && p.comments == []
    ensures p.content == Trim(text) && p.image == imageUrl
    ensures p.userId == StrOf(userData, Uid)
    ensures Truthy(StrOf(userData, DisplayName)) ==> p.authorName == StrOf(userData, DisplayName).value
    ensures !Truthy(StrOf(userData, DisplayName)) ==> p.authorName == "Anonymous"
    ensures Truthy(StrOf(userData, PhotoURL)) ==> p.authorPhoto == StrOf(userData, PhotoURL)
    ensures !Truthy(StrOf(userData, PhotoURL)) ==> p.authorPhoto.None?
  {
    Post(StrOf(userData, Uid), OrText(StrOf(userData, DisplayName), "Anonymous"),
         OrOpt(StrOf(userData, PhotoURL), None), Trim(text), imageUrl, 0, 0, [])
  }

  /** `userData?.uid` is not `undefined`: there is a profile and it has a
      `uid` key (a stored `null` is a value Firestore accepts). */
  predicate UidDefined(userData: Option<Doc>) {
    userData.Some? && Uid in userData.value
  }

  /** The alert `handlePost` shows. */
  datatype Alert = EmptyAlert | SuccessAlert | ErrorAlert

  /** What `handlePost` leaves behind: the store, the text box, the picked
      image, the spinner flag, whether the upload was attempted, and the
      alert. */
  datatype Posted = Posted(store: Store, text: string, image: Option<string>, loading: bool,
                           uploadCalled: bool, alert: Alert)

  /** `handlePost`. `freshId` is the id `addDoc` picks, `upload` the upload's
      outcome, and `writeOk` whether the backend accepts the write. Under
      Firestore's default settings `addDoc` also throws, before anything is
      written, when a field is `undefined`: here `userId` without a loaded
      profile. */
  function HandlePost(store: Store, freshId: string, text: string, image: Option<string>, loading: bool,
                      userData: Option<Doc>, upload: Upload, writeOk: bool): (r: Posted)
    requires freshId !in store
    ensures EmptyPost(text, image) ==> r == Posted(store, text, image, loading, false, EmptyAlert)
    ensures r.uploadCalled <==> !EmptyPost(text, image) && Truthy(image)
    ensures !EmptyPost(text, image) ==> !r.loading
    ensures r.alert == SuccessAlert <==> r.store != store
    ensures r.alert == SuccessAlert <==>
              !EmptyPost(text, image) && (Truthy(image) ==> upload.Uploaded?) && UidDefined(userData) && writeOk
    ensures r.alert == SuccessAlert ==>
              && r.store == store[freshId := NewPost(userData, text, if Truthy(image) then Some(upload.url) else None)]
              && r.text == "" && r.image.None?
    ensures r.alert != SuccessAlert ==> r.store == store && r.text == text && r.image == image
  {
    if EmptyPost(text, image) then Posted(store, text, image, loading, false, EmptyAlert)
    else if Truthy(image) && upload.UploadFailed? then Posted(store, text, image, false, true, ErrorAlert)
    else
      var imageUrl := if Truthy(image) then Some(upload.url) else None;
      if !UidDefined(userData) || !writeOk then Posted(store, text, image, false, Truthy(image), ErrorAlert)
      else Posted(store[freshId := NewPost(userData, text, imageUrl)], "", None, false, Truthy(image), SuccessAlert)
  }

  /** The button is disabled exactly when `handlePost` would refuse, or a
      post is already under way. */
  lemma ButtonMatchesGuard(loading: bool, text: string, image: Option<string>)
    ensures !loading ==> (ButtonDisabled(loading, text, image) <==> EmptyPost(text, image))
  {
  }

  /** A new post is consistent, and adding it keeps the store consistent. */
  lemma PostKeepsConsistent(store: Store, freshId: string, text: string, image: Option<string>, loading: bool,
                            userData: Option<Doc>, upload: Upload, writeOk: bool)
    requires freshId !in store
    requires Consistent(store)
    ensures Consistent(HandlePost(store, freshId, text, image, loading, userData, upload, writeOk).store)
  {
    var r := HandlePost(store, freshId, text, image, loading, userData, upload, writeOk);
    forall id | id in r.store ensures r.store[id].commentsCount == |r.store[id].comments| {
      if id != freshId {
        assert r.store[id] == store[id];
      }
    }
  }

  /** Before the profile has loaded, no post can be created: the write of
      an `undefined` author id is rejected, the image (if any) was still
      uploaded, and the composer keeps its text and image. */
  lemma NoProfileNoPost(store: Store, freshId: string, text: string, image: Option<string>,
                        upload: Upload, writeOk: bool)
    requires freshId !in store && !EmptyPost(text, image)
    ensures var r := HandlePost(store, freshId, text, image, false, None, upload, writeOk);
      r.alert == ErrorAlert && r.store == store && r.text == text && r.image == image
      && (r.uploadCalled <==> Truthy(image))
  {
  }

  /** A post made of an image alone is accepted even with blank text, and
      its content is then empty. */
  lemma ImageOnlyPost(store: Store, freshId: string, text: string, url: string, userData: Option<Doc>)
    requires freshId !in store && AllSpace(text) && url != "" && UidDefined(userData)
    ensures var r := HandlePost(store, freshId, text, Some("img"), false, userData, Uploaded(url), true);
      r.alert == SuccessAlert && r.store[freshId].content == "" && r.store[freshId].image == Some(url)
  {
    BlankIffAllSpace(text);
  }
}
