/** The `users/{uid}` profile document (`UserData`) and the two ways it is
    written: a whole-document `setDoc` and a `setDoc(…, { merge: true })`.
    A document is a map from field name to value, so that the partial
    updates of `updateProfileInfo` are documents too. */
module UserDoc {
  import opened Js

  /** The field names of `UserData`. */
  datatype Key = Uid | FirstName | LastName | DisplayName | Email | PhoneNumber
               | Gender | Dob | Bio | PhotoURL | CreatedAt

  /** A stored value: a string or `null`. Dates are stored as the ISO
      strings the app produces, and those are taken as given. */
  datatype Value = Str(s: string) | Null

  /** A document, or a partial update: a key is absent exactly when the
      field is `undefined`. */
  type Doc = map<Key, Value>

  type Users = map<string, Doc>

  /** The document has key `k` with value `v`. */
  predicate Holds(d: Doc, k: Key, v: Value) {
    k in d && d[k] == v
  }

  /** `null` for an absent option, the string otherwise. */
  function ValueOf(v: Option<string>): (r: Value)
    ensures r.Str? <==> v.Some?
    ensures v.Some? ==> r.s == v.value
  {
    if v.Some? then Str(v.value) else Null
  }

  /** `d?.k` read as an optional string: `None` when there is no
      document, no such key, or a `null` value. */
  function StrOf(d: Option<Doc>, k: Key): (r: Option<string>)
    ensures r.Some? <==> d.Some? && k in d.value && d.value[k].Str?
    ensures r.Some? ==> r.value == d.value[k].s
  {
    if d.Some? && k in d.value && d.value[k].Str? then Some(d.value[k].s) else None
  }

  /** `setDoc(ref, updates, { merge: true })` on a document that may not
      exist yet: each key in `updates` takes its new value, every other key
      keeps the stored one. */
  function Merge(stored: Option<Doc>, updates: Doc): (r: Doc)
    ensures r.Keys == updates.Keys + (if stored.Some? then stored.value.Keys else {})
    ensures forall k :: k in updates ==> r[k] == updates[k]
    ensures stored.Some? ==> forall k :: k in stored.value && k !in updates ==> r[k] == stored.value[k]
  {
    if stored.Some? then stored.value + updates else updates
  }

  /** A value written with `ValueOf` reads back through `StrOf` as the
      optional string it came from: `null` as absent, a string as itself. */
  lemma ValueOfReadsBack(d: Doc, k: Key, v: Option<string>)
    ensures StrOf(Some(d[k := ValueOf(v)]), k) == v
  {
  }

  /** The document stored at `uid`, if any. */
  function Lookup(users: Users, uid: string): (r: Option<Doc>)
    ensures r.Some? <==> uid in users
    ensures r.Some? ==> r.value == users[uid]
  {
    if uid in users then Some(users[uid]) else None
  }

  /** Merging the same update twice is merging it once. */
  lemma MergeIdempotent(stored: Option<Doc>, updates: Doc)
    ensures Merge(Some(Merge(stored, updates)), updates) == Merge(stored, updates)
  {
    var once := Merge(stored, updates);
    assert Merge(Some(once), updates) == once + updates;
    assert once + updates == once;
  }

  /** Two merges in a row are one merge of the later update over the
      earlier one. */
  lemma MergeSequence(stored: Option<Doc>, first: Doc, second: Doc)
    ensures Merge(Some(Merge(stored, first)), second) == Merge(stored, first + second)
  {
    if stored.Some? {
      assert stored.value + first + second == stored.value + (first + second);
    }
  }
}
