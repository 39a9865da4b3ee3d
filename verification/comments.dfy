/** The comments screen `CommentsScreen.tsx`: sending a comment, the
    author listeners keyed on the distinct commenter ids, and how each
    comment's author is shown. */
module Comments {
  import opened Js
  import opened JsSort
  import opened UserDoc
  import opened Posts

  /** The comment `handleSendComment` writes for the signed-in `uid` with
      the profile `userData` loaded: the trimmed text, the profile's
      display name or `'Unknown'`, and its photo or `null`. */
  function NewComment(uid: string, userData: Option<Doc>, input: string): (c: Comment)
    ensures c.userId == Some(uid) && c.text == Trim(input)
    ensures Truthy(StrOf(userData, DisplayName)) ==> c.authorName == StrOf(userData, DisplayName).value
    ensures !Truthy(StrOf(userData, DisplayName)) ==> c.authorName == "Unknown"
    ensures Truthy(StrOf(userData, PhotoURL)) ==> c.authorPhoto == StrOf(userData, PhotoURL)
    ensures !Truthy(StrOf(userData, PhotoURL)) ==> c.authorPhoto.None?
    ensures c.authorName != "" && (c.authorPhoto.Some? ==> c.authorPhoto.value != "")
  {
    Comment(Some(uid), OrText(StrOf(userData, DisplayName), "Unknown"),
            OrOpt(StrOf(userData, PhotoURL), None), Trim(input))
  }

  /** The text of a stored comment is never blank and never starts or ends
      with white space. */
  lemma CommentTextTrimmed(uid: string, userData: Option<Doc>, input: string)
    requires !Blank(input)
    ensures var t := NewComment(uid, userData, input).text;
      t != "" && !IsSpace(t[0]) && !IsSpace(t[|t| - 1])
  {
    TrimSpec(input);
  }

  /** The transaction commits: there is something to send, someone to send
      it as, the post exists (the `update` of a missing post fails) and the
      backend accepts. */
  predicate Commits(store: Store, postId: string, input: string, user: Option<string>, txnOk: bool) {
    !Blank(input) && user.Some? && postId in store && txnOk
  }

  /** What `handleSendComment` leaves behind: the store, the input box, the
      `sending` flag, and whether the error alert was shown. */
  datatype Sent = Sent(store: Store, input: string, sending: bool, alerted: bool)

  /** `handleSendComment`. The guard returns before anything changes; past
      it, one transaction adds the comment and increments `commentsCount`,
      both or neither. `txnOk` is the backend's verdict on the transaction. */
  function SendComment(store: Store, postId: string, input: string, sending: bool,
                       user: Option<string>, userData: Option<Doc>, txnOk: bool): (r: Sent)
    ensures Blank(input) || user.None? ==> r == Sent(store, input, sending, false)
    ensures !Blank(input) && user.Some? ==> !r.sending
    ensures Commits(store, postId, input, user, txnOk) ==>
              && postId in r.store
              && r.store[postId].comments == store[postId].comments + [NewComment(user.value, userData, input)]
              && r.store[postId].commentsCount == store[postId].commentsCount + 1
              && r.store[postId] == store[postId].(comments := r.store[postId].comments,
                                                   commentsCount := r.store[postId].commentsCount)
              && r.input == ""
    ensures !Commits(store, postId, input, user, txnOk) ==> r.store == store && r.input == input
    ensures r.alerted <==> !Blank(input) && user.Some? && !Commits(store, postId, input, user, txnOk)
    ensures r.store.Keys == store.Keys
    ensures forall id :: id in store && id != postId ==> r.store[id] == store[id]
  {
    if Blank(input) || user.None? then Sent(store, input, sending, false)
    else if postId in store && txnOk then
      var p := store[postId];
      var added := p.(comments := p.comments + [NewComment(user.value, userData, input)],
                      commentsCount := p.commentsCount + 1);
      Sent(store[postId := added], "", false, false)
    else
      Sent(store, input, false, true)
  }

  /** Sending a comment keeps every post's count equal to its comments,
      whether the transaction committed or not. */
  lemma SendKeepsConsistent(store: Store, postId: string, input: string, sending: bool,
                            user: Option<string>, userData: Option<Doc>, txnOk: bool)
    requires Consistent(store)
    ensures Consistent(SendComment(store, postId, input, sending, user, userData, txnOk).store)
  {
    var r := SendComment(store, postId, input, sending, user, userData, txnOk);
    forall id | id in r.store ensures r.store[id].commentsCount == |r.store[id].comments| {
      if id != postId {
        assert r.store[id] == store[id];
      }
    }
  }

  /** `comments.map(c => c.userId)`. */
  function AuthorIds(comments: seq<Comment>): (ids: seq<Option<string>>)
    ensures |ids| == |comments|
    ensures forall i :: 0 <= i < |comments| ==> ids[i] == comments[i].userId
  {
    seq(|comments|, i requires 0 <= i < |comments| => comments[i].userId)
  }

  /** The truthy ids of `s`, in order. */
  function Truthies(s: seq<Option<string>>): seq<string>
  {
    if |s| == 0 then []
    else Truthies(s[..|s| - 1]) + (if Truthy(s[|s| - 1]) then [s[|s| - 1].value] else [])
  }

  lemma {:induction false} TruthiesSpec(s: seq<Option<string>>)
    requires Distinct(s)
    ensures Distinct(Truthies(s))
    ensures forall u :: u in Truthies(s) <==> u != "" && Some(u) in s
  {
    if |s| > 0 {
      var init := s[..|s| - 1];
      TruthiesSpec(init);
      assert forall x :: x in s <==> x in init || x == s[|s| - 1];
      if Truthy(s[|s| - 1]) {
        var t := Truthies(init);
        var u := s[|s| - 1].value;
        assert u !in t by {
          forall i | 0 <= i < |init| ensures init[i] != s[|s| - 1] {
            assert init[i] == s[i];
          }
        }
        assert Truthies(s) == t + [u];
      }
    }
  }

  /** `Array.from(new Set(comments.map(c => c.userId))).filter(id => !!id)`:
      the ids to subscribe to, each once, in the order first seen. */
  method DistinctAuthors(comments: seq<Comment>) returns (ids: seq<string>)
    ensures ids == Truthies(Dedup(AuthorIds(comments)))
    ensures Distinct(ids)
    ensures forall u :: u in ids <==> u != "" && exists i :: 0 <= i < |comments| && comments[i].userId == Some(u)
  {
    var all := AuthorIds(comments);
    var seen: seq<Option<string>> := [];
    ids := [];
    for i := 0 to |comments|
      invariant seen == Dedup(all[..i])
      invariant ids == Truthies(seen)
    {
      var u := comments[i].userId;
      assert all[..i + 1][..i] == all[..i];
      if u !in seen {
        assert (seen + [u])[..|seen|] == seen;
        seen := seen + [u];
        if Truthy(u) {
          ids := ids + [u.value];
        }
      }
    }
    assert all[..|comments|] == all;
    SubscribedIds(comments);
  }

  /** The ids subscribed to are the truthy ids of the comments, each once. */
  lemma SubscribedIds(comments: seq<Comment>)
    ensures Distinct(Truthies(Dedup(AuthorIds(comments))))
    ensures forall u :: u in Truthies(Dedup(AuthorIds(comments))) <==>
              u != "" && exists i :: 0 <= i < |comments| && comments[i].userId == Some(u)
  {
    var all := AuthorIds(comments);
    TruthiesSpec(Dedup(all));
    forall u ensures Some(u) in all <==> exists i :: 0 <= i < |comments| && comments[i].userId == Some(u) {
      if Some(u) in all {
        var i :| 0 <= i < |all| && all[i] == Some(u);
        assert comments[i].userId == Some(u);
      }
    }
  }

  /** The dependency of the author-listener effect: the distinct ids,
      `undefined` included, sorted. (`JSON.stringify` is one-to-one on such
      arrays, so the array itself stands for the string.) */
  function SubscriptionKey(comments: seq<Comment>): seq<Option<string>> {
    Sort(Dedup(AuthorIds(comments)))
  }

  /** The key lists each commenter once, in ascending order. */
  lemma KeyAscending(comments: seq<Comment>)
    ensures Ascending(SubscriptionKey(comments))
    ensures forall u :: u in SubscriptionKey(comments) <==> u in AuthorIds(comments)
  {
    SortSpec(Dedup(AuthorIds(comments)));
  }

  /** The key depends only on who commented: the same commenters in any
      order and number give the same key, so the listeners are kept. */
  lemma KeyDependsOnAuthors(a: seq<Comment>, b: seq<Comment>)
    requires forall u :: u in AuthorIds(a) <==> u in AuthorIds(b)
    ensures SubscriptionKey(a) == SubscriptionKey(b)
  {
    SortedSetDependsOnValues(AuthorIds(a), AuthorIds(b));
  }

  /** A new comment by someone who already commented, wherever the
      snapshot places it, leaves the key as it was. */
  lemma SeenAuthorKeepsKey(comments: seq<Comment>, c: Comment)
    requires exists i :: 0 <= i < |comments| && comments[i].userId == c.userId
    ensures SubscriptionKey([c] + comments) == SubscriptionKey(comments)
    ensures SubscriptionKey(comments + [c]) == SubscriptionKey(comments)
  {
    var ids := AuthorIds(comments);
    assert AuthorIds([c] + comments) == [c.userId] + ids;
    assert AuthorIds(comments + [c]) == ids + [c.userId];
    var i :| 0 <= i < |comments| && comments[i].userId == c.userId;
    assert ids[i] == c.userId;
    KeyDependsOnAuthors([c] + comments, comments);
    KeyDependsOnAuthors(comments + [c], comments);
  }

  /** The authors listener: a snapshot of an existing profile inserts or
      replaces that author's entry; nothing else changes. */
  function OnAuthorSnapshot(authors: Users, uid: string, found: bool, data: Doc): (r: Users)
    ensures found ==> Lookup(r, uid) == Some(data)
    ensures !found ==> r == authors
    ensures forall v :: v != uid ==> Lookup(r, v) == Lookup(authors, v)
  {
    if found then authors[uid := data] else authors
  }

  /** `authors[item.userId]`: the live profile of the comment's author. */
  function AuthorOf(authors: Users, c: Comment): Option<Doc> {
    if c.userId.Some? then Lookup(authors, c.userId.value) else None
  }

  /** The name shown on a comment: the live display name, else the name
      stored with the comment, else `'User'`. */
  function ShownName(authors: Users, c: Comment): (name: string)
    ensures name != ""
    ensures Truthy(StrOf(AuthorOf(authors, c), DisplayName)) ==> name == StrOf(AuthorOf(authors, c), DisplayName).value
    ensures !Truthy(StrOf(AuthorOf(authors, c), DisplayName)) && c.authorName != "" ==> name == c.authorName
    ensures !Truthy(StrOf(AuthorOf(authors, c), DisplayName)) && c.authorName == "" ==> name == "User"
  {
    OrText(OrOpt(StrOf(AuthorOf(authors, c), DisplayName), Some(c.authorName)), "User")
  }

  /** The photo shown on a comment: the live photo, else the stored one. */
  function ShownPhoto(authors: Users, c: Comment): (photo: Option<string>)
    ensures Truthy(StrOf(AuthorOf(authors, c), PhotoURL)) ==> photo == StrOf(AuthorOf(authors, c), PhotoURL)
    ensures !Truthy(StrOf(AuthorOf(authors, c), PhotoURL)) ==> photo == c.authorPhoto
  {
    OrOpt(StrOf(AuthorOf(authors, c), PhotoURL), c.authorPhoto)
  }

  /** Once the author's profile arrives with a display name, every comment
      of theirs shows that name instead of the one stored at writing time. */
  lemma LiveNameOverrides(authors: Users, c: Comment, name: string, data: Doc)
    requires c.userId.Some? && name != ""
    requires Holds(data, DisplayName, Str(name))
    ensures ShownName(OnAuthorSnapshot(authors, c.userId.value, true, data), c) == name
  {
  }
}
