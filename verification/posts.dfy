/** The `posts` collection seen as one store: each post with its counters
    and the documents of its `comments` sub-collection. */
module Posts {
  import opened Js

  /** A document of `posts/{id}/comments`. `userId` is `undefined` when
      the document has none. */
  datatype Comment = Comment(userId: Option<string>, authorName: string, authorPhoto: Option<string>, text: string)

  /** A document of `posts`, with its comments alongside. `userId` is
      `userData?.uid` of the author, `undefined` without a profile. */
  datatype Post = Post(
    userId: Option<string>,
    authorName: string,
    authorPhoto: Option<string>,
    content: string,
    image: Option<string>,
    likesCount: int,
    commentsCount: int,
    comments: seq<Comment>)

  type Store = map<string, Post>

  /** Every post's `commentsCount` equals the number of its comments. */
  predicate Consistent(store: Store) {
    forall id :: id in store ==> store[id].commentsCount == |store[id].comments|
  }
}
