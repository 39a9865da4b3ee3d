/** The chat list `ChatListScreen.tsx`: the live query of the signed-in
    user's chats, and how each row picks the other participant and falls
    back when data is missing. */
module ChatList {
  import opened Js
  import opened UserDoc

  /** A document of `chats`. `participantData` maps uids to the profile
      copies stored with the chat; `lastMessage` may be missing. */
  datatype Chat = Chat(id: string, participants: seq<string>, participantData: Option<Users>, lastMessage: Option<string>)

  /** The screen's state: the rows shown, the spinner flag, and whether the
      query listener is installed. */
  datatype Screen = Screen(chats: seq<Chat>, loading: bool, listening: bool)

  const Initial := Screen([], true, false)

  /** The effect keyed on `user`. A change of `user` first runs the
      previous run's cleanup, which unsubscribes; then without a signed-in
      user the effect returns before querying, and with one it installs a
      new listener. The rows and the spinner are left as they were. */
  function OnUser(s: Screen, user: Option<string>): (r: Screen)
    ensures r.listening <==> user.Some?
    ensures r.chats == s.chats && r.loading == s.loading
  {
    s.(listening := user.Some?)
  }

  /** The snapshot callback of the installed listener: the rows become the
      snapshot's documents, in the query's order, and loading ends. */
  function OnSnapshot(s: Screen, docs: seq<Chat>): (r: Screen)
    requires s.listening
    ensures r.chats == docs && !r.loading && r.listening
  {
    s.(chats := docs, loading := false)
  }

  /** The error callback of the installed listener: the rows stay, loading
      ends. */
  function OnError(s: Screen): (r: Screen)
    requires s.listening
    ensures r.chats == s.chats && !r.loading && r.listening
  {
    s.(loading := false)
  }

  /** What reaches the screen: a new value of `user`, or a callback of the
      chats query. */
  datatype Event = UserChanged(user: Option<string>) | Snapshot(docs: seq<Chat>) | QueryFailed

  /** One event. A callback only runs while a listener is installed; after
      the cleanup has unsubscribed, nothing is delivered. */
  function Apply(s: Screen, e: Event): (r: Screen)
    ensures !s.listening && !e.UserChanged? ==> r == s
    ensures e.UserChanged? ==> r == OnUser(s, e.user)
  {
    match e
    case UserChanged(user) => OnUser(s, user)
    case Snapshot(docs) => if s.listening then OnSnapshot(s, docs) else s
    case QueryFailed => if s.listening then OnError(s) else s
  }

  function Run(s: Screen, events: seq<Event>): Screen
    decreases |events|
  {
    if |events| == 0 then s else Run(Apply(s, events[0]), events[1..])
  }

  /** No event brings a signed-in user. */
  predicate NeverSignedIn(events: seq<Event>) {
    forall i :: 0 <= i < |events| ==> events[i].UserChanged? ==> events[i].user.None?
  }

  /** Without a signed-in user the spinner never stops: no query is made,
      so however many events arrive, none can end loading, and the rows
      stay empty. */
  lemma {:induction false} NoUserKeepsLoading(events: seq<Event>)
    requires NeverSignedIn(events)
    ensures Run(OnUser(Initial, None), events) == Screen([], true, false)
  {
    StaysIdle(OnUser(Initial, None), events);
  }

  lemma {:induction false} StaysIdle(s: Screen, events: seq<Event>)
    requires !s.listening && NeverSignedIn(events)
    ensures Run(s, events) == s
    decreases |events|
  {
    if |events| > 0 {
      assert Apply(s, events[0]) == s;
      StaysIdle(s, events[1..]);
    }
  }

  /** Signing out detaches the screen: whatever callbacks arrive afterwards,
      the rows and the spinner keep the values they had at sign-out. */
  lemma SignOutDetaches(s: Screen, events: seq<Event>)
    requires NeverSignedIn(events)
    ensures Run(OnUser(s, None), events) == s.(listening := false)
  {
    StaysIdle(OnUser(s, None), events);
  }

  /** A signed-in user's first snapshot fills the rows and stops the
      spinner. */
  lemma FirstSnapshotShows(uid: string, docs: seq<Chat>)
    ensures Run(Initial, [UserChanged(Some(uid)), Snapshot(docs)]) == Screen(docs, false, true)
  {
    var e := [UserChanged(Some(uid)), Snapshot(docs)];
    var signedIn := Apply(Initial, e[0]);
    assert signedIn.listening;
    assert e[1..] == [Snapshot(docs)] && e[1..][1..] == [];
    assert Run(signedIn, e[1..]) == Run(Apply(signedIn, Snapshot(docs)), []);
  }

  /** The position `participants.find(id => id !== me)` stops at: the first
      id different from `me`, or the length when every id is `me`. With no
      signed-in user every id differs from `undefined`. */
  function FirstOther(participants: seq<string>, me: Option<string>): (k: nat)
    ensures k <= |participants|
    ensures forall i :: 0 <= i < k ==> Some(participants[i]) == me
    ensures k < |participants| ==> Some(participants[k]) != me
    decreases |participants|
  {
    if |participants| == 0 then 0
    else if Some(participants[0]) != me then 0
    else 1 + FirstOther(participants[1..], me)
  }

  /** `otherParticipantId`: `undefined` when no id differs from `me`. */
  function OtherParticipant(chat: Chat, me: Option<string>): (other: Option<string>)
    ensures other.Some? ==> other.value in chat.participants && Some(other.value) != me
    ensures other.None? <==> forall i :: 0 <= i < |chat.participants| ==> Some(chat.participants[i]) == me
  {
    var k := FirstOther(chat.participants, me);
    if k < |chat.participants| then Some(chat.participants[k]) else None
  }

  /** A chat the query returned holds `me`; once it also holds anyone else,
      the row names that other participant and never `me`. */
  lemma OtherOfTwo(chat: Chat, me: string, you: string)
    requires me in chat.participants && you in chat.participants && you != me
    ensures OtherParticipant(chat, Some(me)).Some?
    ensures OtherParticipant(chat, Some(me)).value != me
  {
    var i :| 0 <= i < |chat.participants| && chat.participants[i] == you;
  }

  /** `item.participantData?.[otherParticipantId] || {}`: the stored copy of
      the other participant's profile, or the empty object. */
  function OtherData(chat: Chat, me: Option<string>): (d: Doc)
    ensures chat.participantData.None? || OtherParticipant(chat, me).None? ==> d == map[]
    ensures chat.participantData.Some? && OtherParticipant(chat, me).Some? ==>
              d == (if OtherParticipant(chat, me).value in chat.participantData.value
                    then chat.participantData.value[OtherParticipant(chat, me).value] else map[])
    ensures d != map[] ==> exists u :: u in chat.participants && Some(u) != me
                                       && chat.participantData.Some? && u in chat.participantData.value
                                       && d == chat.participantData.value[u]
  {
    var other := OtherParticipant(chat, me);
    if chat.participantData.Some? && other.Some? && other.value in chat.participantData.value
    then chat.participantData.value[other.value]
    else map[]
  }

  /** What a row shows. */
  datatype Row = Row(name: string, photo: Option<string>, lastMessage: string)

  /** `renderChatItem`: the other participant's display name or `'User'`,
      their photo or the app icon (`None`), and the last message or
      `'No messages yet'`. */
  function RenderRow(chat: Chat, me: Option<string>): (r: Row)
    ensures r.name != "" && r.lastMessage != ""
    ensures Truthy(StrOf(Some(OtherData(chat, me)), DisplayName)) ==> r.name == StrOf(Some(OtherData(chat, me)), DisplayName).value
    ensures !Truthy(StrOf(Some(OtherData(chat, me)), DisplayName)) ==> r.name == "User"
    ensures Truthy(StrOf(Some(OtherData(chat, me)), PhotoURL)) ==> r.photo == StrOf(Some(OtherData(chat, me)), PhotoURL)
    ensures !Truthy(StrOf(Some(OtherData(chat, me)), PhotoURL)) ==> r.photo.None?
    ensures Truthy(chat.lastMessage) ==> r.lastMessage == chat.lastMessage.value
    ensures !Truthy(chat.lastMessage) ==> r.lastMessage == "No messages yet"
  {
    var data := Some(OtherData(chat, me));
    Row(OrText(StrOf(data, DisplayName), "User"),
        OrOpt(StrOf(data, PhotoURL), None),
        OrText(chat.lastMessage, "No messages yet"))
  }

  /** In a chat between `me` and `you`, whichever order the ids are
      stored in, the row shows `you`'s stored name and photo (with the
      `'User'` and icon fallbacks) and never anything stored for `me`. */
  lemma RowShowsTheOther(chat: Chat, me: string, you: string)
    requires me != you
    requires chat.participants == [me, you] || chat.participants == [you, me]
    requires chat.participantData.Some? && you in chat.participantData.value
    ensures var stored := Some(chat.participantData.value[you]);
      && RenderRow(chat, Some(me)).name == OrText(StrOf(stored, DisplayName), "User")
      && RenderRow(chat, Some(me)).photo == OrOpt(StrOf(stored, PhotoURL), None)
  {
    if chat.participants == [me, you] {
      assert FirstOther(chat.participants[1..], Some(me)) == 0;
    }
    assert OtherParticipant(chat, Some(me)) == Some(you);
  }

  /** A chat without stored profiles shows `'User'` and the app icon. */
  lemma MissingDataFallsBack(chat: Chat, me: Option<string>)
    requires chat.participantData.None?
    ensures RenderRow(chat, me).name == "User" && RenderRow(chat, me).photo.None?
  {
  }
}
