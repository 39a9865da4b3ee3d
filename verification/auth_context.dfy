/** The authentication context (`authContext.tsx`, and `authContex.js`,
    the copy `App.tsx` mounts): the session state driven by the auth-state
    callback and the profile listeners it installs, the profile record
    `signUp` writes, and the keys `updateProfileInfo` sends to each layer.
    The two files agree line for line in everything modelled here except
    `useAuth`. */
module AuthContext {
  import opened Js
  import opened UserDoc
  import Forms

  /** `{ user, userData, loading }`, plus the set of uids whose profile
      listener is installed. `user` is the signed-in uid. */
  datatype Session = Session(user: Option<string>, userData: Option<Doc>, loading: bool, watching: set<string>)

  /** The state on mount: no user, no profile, loading, no listener. */
  const Initial := Session(None, None, true, {})

  /** What reaches the provider: the auth-state callback with the current
      user or `null`, or a snapshot of `users/{uid}` delivered to a
      listener on that document. */
  datatype Event =
    | AuthChanged(current: Option<string>)
    | ProfileSnapshot(uid: string, found: bool, data: Doc)

  /** One callback, as written. A signed-in user installs a listener on
      their document and returns before `setLoading(false)`; the returned
      clean-up goes back to an `async` callback whose result nobody reads,
      so the listener is never removed. Signing out clears the profile and
      ends loading. A snapshot is seen only by an installed listener and
      replaces the profile only when the document exists. */
  function Step(s: Session, e: Event): (r: Session)
    ensures r.watching >= s.watching
    ensures r.loading ==> s.loading
    ensures e.AuthChanged? ==> r.user == e.current
    ensures e.ProfileSnapshot? ==> r.user == s.user && r.loading == s.loading
    ensures r.userData != s.userData ==>
              e == AuthChanged(None) || (e.ProfileSnapshot? && e.found && e.uid in s.watching)
  {
    match e
    case AuthChanged(current) =>
      if current.Some? then s.(user := current, watching := s.watching + {current.value})
      else s.(user := None, userData := None, loading := false)
    case ProfileSnapshot(uid, found, data) =>
      if uid in s.watching && found then s.(userData := Some(data)) else s
  }

  /** The session after a sequence of events. */
  function Run(s: Session, events: seq<Event>): Session
    decreases |events|
  {
    if |events| == 0 then s else Run(Step(s, events[0]), events[1..])
  }

  /** The signed-out event resets the user and the profile and ends loading;
      a signed-in event keeps the old profile until a snapshot arrives and
      leaves loading where it was; a snapshot of a missing document changes
      nothing. */
  lemma StepEffects(s: Session, e: Event)
    ensures e == AuthChanged(None) ==> Step(s, e) == s.(user := None, userData := None, loading := false)
    ensures e.AuthChanged? && e.current.Some? ==>
              Step(s, e).userData == s.userData && Step(s, e).loading == s.loading && e.current.value in Step(s, e).watching
    ensures e.ProfileSnapshot? && !e.found ==> Step(s, e) == s
    ensures e.ProfileSnapshot? && e.found && e.uid in s.watching ==> Step(s, e).userData == Some(e.data)
  {
  }

  /** Loading ends only with a signed-out event: while none arrives it
      stays true, however many users sign in and snapshots arrive. */
  lemma {:induction false} LoadingNeedsSignOut(s: Session, events: seq<Event>)
    requires s.loading
    requires forall i :: 0 <= i < |events| ==> events[i] != AuthChanged(None)
    ensures Run(s, events).loading
    decreases |events|
  {
    if |events| > 0 {
      LoadingNeedsSignOut(Step(s, events[0]), events[1..]);
    }
  }

  /** A signed-in user on start-up leaves the provider loading for good. */
  lemma SignedInStartStaysLoading(uid: string, data: Doc)
    ensures Run(Initial, [AuthChanged(Some(uid)), ProfileSnapshot(uid, true, data)]).loading
  {
    LoadingNeedsSignOut(Initial, [AuthChanged(Some(uid)), ProfileSnapshot(uid, true, data)]);
  }

  /** A listener once installed stays installed. */
  lemma {:induction false} ListenersAccumulate(s: Session, events: seq<Event>, uid: string)
    requires uid in s.watching
    ensures uid in Run(s, events).watching
    decreases |events|
  {
    if |events| > 0 {
      ListenersAccumulate(Step(s, events[0]), events[1..], uid);
    }
  }

  /** The profile belongs to the session: signed out means no profile, and
      the only listener is the one on the signed-in user's document. */
  predicate Coherent(s: Session) {
    && (s.user.None? ==> s.userData.None? && s.watching == {})
    && (s.user.Some? ==> s.watching == {s.user.value})
  }

  lemma RunCons(s: Session, e: Event, events: seq<Event>)
    ensures Run(s, [e] + events) == Run(Step(s, e), events)
  {
    assert ([e] + events)[1..] == events;
  }

  /** After signing out, a snapshot of the former user's document still
      arrives and installs a profile with nobody signed in. */
  lemma ProfileAfterSignOut(uid: string, data: Doc)
    ensures var r := Run(Initial, [AuthChanged(Some(uid)), AuthChanged(None), ProfileSnapshot(uid, true, data)]);
      r.user.None? && r.userData == Some(data) && !Coherent(r)
  {
    var e1, e2, e3 := AuthChanged(Some(uid)), AuthChanged(None), ProfileSnapshot(uid, true, data);
    RunCons(Initial, e1, [e2, e3]);
    RunCons(Step(Initial, e1), e2, [e3]);
    RunCons(Step(Step(Initial, e1), e2), e3, []);
  }

  /** After switching accounts, a snapshot of the first user's document
      replaces the second user's profile. */
  lemma ProfileOfOtherUser(a: string, b: string, data: Doc)
    requires a != b
    ensures var r := Run(Initial, [AuthChanged(Some(a)), AuthChanged(Some(b)), ProfileSnapshot(a, true, data)]);
      r.user == Some(b) && r.userData == Some(data) && !Coherent(r)
  {
    var e1, e2, e3 := AuthChanged(Some(a)), AuthChanged(Some(b)), ProfileSnapshot(a, true, data);
    RunCons(Initial, e1, [e2, e3]);
    RunCons(Step(Initial, e1), e2, [e3]);
    RunCons(Step(Step(Initial, e1), e2), e3, []);
    var r := Step(Step(Step(Initial, e1), e2), e3);
    assert a in r.watching && a != b;
  }

  /** The callback as evidently intended: a new session replaces the
      listener set with its own document's listener (the previous one is
      unsubscribed), signing out removes it, and both branches end loading. */
  function StepFixed(s: Session, e: Event): (r: Session)
    ensures e.AuthChanged? ==> r.user == e.current && !r.loading
    ensures e.ProfileSnapshot? ==> r.user == s.user && r.loading == s.loading && r.watching == s.watching
    ensures e == AuthChanged(None) ==> r.userData.None?
    ensures r.userData != s.userData ==>
              e == AuthChanged(None) || (e.ProfileSnapshot? && e.found && e.uid in s.watching)
  {
    match e
    case AuthChanged(current) =>
      if current.Some? then s.(user := current, watching := {current.value}, loading := false)
      else s.(user := None, userData := None, loading := false, watching := {})
    case ProfileSnapshot(uid, found, data) =>
      if uid in s.watching && found then s.(userData := Some(data)) else s
  }

  function RunFixed(s: Session, events: seq<Event>): Session
    decreases |events|
  {
    if |events| == 0 then s else RunFixed(StepFixed(s, events[0]), events[1..])
  }

  /** The corrected callback keeps the session coherent, and a snapshot it
      applies is always of the signed-in user's document. */
  lemma StepFixedCoherent(s: Session, e: Event)
    requires Coherent(s)
    ensures Coherent(StepFixed(s, e))
    ensures StepFixed(s, e).userData != s.userData && e.ProfileSnapshot? ==> s.user == Some(e.uid)
  {
  }

  lemma RunFixedCons(s: Session, e: Event, events: seq<Event>)
    ensures RunFixed(s, [e] + events) == RunFixed(StepFixed(s, e), events)
  {
    assert ([e] + events)[1..] == events;
  }

  /** What the correction does not cover: on a direct switch from `a` to
      `b` neither version clears the profile, so `b` is shown `a`'s profile
      until `b`'s own document arrives, and for good when `b` has none. A
      late snapshot of `a` is ignored, and the session stays coherent. */
  lemma FixedSwitchShowsPreviousProfile(a: string, b: string, d: Doc, late: Doc)
    requires a != b
    ensures var r := RunFixed(Initial, [AuthChanged(Some(a)), ProfileSnapshot(a, true, d), AuthChanged(Some(b)),
                                        ProfileSnapshot(a, true, late), ProfileSnapshot(b, false, late)]);
      r.user == Some(b) && r.userData == Some(d) && Coherent(r)
  {
    var e1, e2, e3, e4, e5 := AuthChanged(Some(a)), ProfileSnapshot(a, true, d), AuthChanged(Some(b)),
                              ProfileSnapshot(a, true, late), ProfileSnapshot(b, false, late);
    var s1 := StepFixed(Initial, e1);
    var s2 := StepFixed(s1, e2);
    var s3 := StepFixed(s2, e3);
    var s4 := StepFixed(s3, e4);
    RunFixedCons(Initial, e1, [e2, e3, e4, e5]);
    RunFixedCons(s1, e2, [e3, e4, e5]);
    RunFixedCons(s2, e3, [e4, e5]);
    RunFixedCons(s3, e4, [e5]);
    RunFixedCons(s4, e5, []);
    assert s3.watching == {b} && a !in s3.watching;
  }

  /** Coherence holds from mount on, whatever the events. */
  lemma {:induction false} RunFixedCoherent(s: Session, events: seq<Event>)
    requires Coherent(s)
    ensures Coherent(RunFixed(s, events))
    decreases |events|
  {
    if |events| > 0 {
      StepFixedCoherent(s, events[0]);
      RunFixedCoherent(StepFixed(s, events[0]), events[1..]);
    }
  }

  /** With the correction, loading ends at the first auth-state callback of
      either kind and never comes back. */
  lemma {:induction false} RunFixedResolves(s: Session, events: seq<Event>)
    requires exists i :: 0 <= i < |events| && events[i].AuthChanged?
    ensures !RunFixed(s, events).loading
    decreases |events|
  {
    var i :| 0 <= i < |events| && events[i].AuthChanged?;
    if events[0].AuthChanged? {
      FixedStaysResolved(StepFixed(s, events[0]), events[1..]);
    } else {
      assert events[1..][i - 1] == events[i];
      RunFixedResolves(StepFixed(s, events[0]), events[1..]);
    }
  }

  lemma {:induction false} FixedStaysResolved(s: Session, events: seq<Event>)
    requires !s.loading
    ensures !RunFixed(s, events).loading
    decreases |events|
  {
    if |events| > 0 {
      FixedStaysResolved(StepFixed(s, events[0]), events[1..]);
    }
  }

  /** The profile record `signUp` writes for a new account. `dobIso` and
      `createdAt` are the ISO strings of the chosen birth date and of the
      current time, taken as given. */
  function NewUserData(uid: string, email: string, info: Forms.Info, dobIso: string, createdAt: string): (r: Doc)
    ensures r.Keys == {Uid, FirstName, LastName, DisplayName, Email, PhoneNumber, Gender, Dob, Bio, PhotoURL, CreatedAt}
    ensures r[Uid] == Str(uid) && r[Email] == Str(email)
    ensures r[DisplayName] == Str(info.firstName + " " + info.lastName)
    ensures r[FirstName] == Str(info.firstName) && r[LastName] == Str(info.lastName)
    ensures r[PhoneNumber] == Str(info.phoneNumber) && r[Gender] == ValueOf(info.gender)
    ensures r[Bio] == Str("") && r[PhotoURL] == Null
    ensures r[Dob] == Str(dobIso) && r[CreatedAt] == Str(createdAt)
  {
    map[Uid := Str(uid), FirstName := Str(info.firstName), LastName := Str(info.lastName),
        DisplayName := Str(info.firstName + " " + info.lastName), Email := Str(email),
        PhoneNumber := Str(info.phoneNumber), Gender := ValueOf(info.gender), Dob := Str(dobIso),
        Bio := Str(""), PhotoURL := Null, CreatedAt := Str(createdAt)]
  }

  /** The two stores `signUp` writes: the auth layer's profile per uid
      (display name, photo, email) and the `users` collection. */
  datatype Backend = Backend(auth: Users, users: Users)

  /** Where a call into the backend failed, if it did. */
  datatype Failure = NoFailure | CreateFails | UpdateFails | WriteFails

  /** `signUp(email, password, info)`: create the account under the fresh
      `uid` the backend picks, set its display name, then write the
      profile. Each call may throw, and a throw skips the later calls. */
  function SignUp(b: Backend, uid: string, email: string, info: Forms.Info, dobIso: string, createdAt: string,
                  failure: Failure): (r: (Backend, bool))
    requires uid !in b.auth && uid !in b.users
    ensures r.1 <==> failure != NoFailure
    ensures failure == CreateFails ==> r.0 == b
    ensures failure != CreateFails ==> uid in r.0.auth && Holds(r.0.auth[uid], Email, Str(email))
    ensures failure == NoFailure || failure == WriteFails ==>
              Holds(r.0.auth[uid], DisplayName, Str(info.firstName + " " + info.lastName))
    ensures failure == NoFailure <==> uid in r.0.users
    ensures failure == NoFailure ==> r.0.users[uid] == NewUserData(uid, email, info, dobIso, createdAt)
    ensures failure == NoFailure ==> r.0.auth[uid][DisplayName] == r.0.users[uid][DisplayName]
    ensures forall v :: v != uid ==> Lookup(r.0.auth, v) == Lookup(b.auth, v) && Lookup(r.0.users, v) == Lookup(b.users, v)
  {
    match failure
    case CreateFails => (b, true)
    case UpdateFails => (b.(auth := b.auth[uid := map[Email := Str(email)]]), true)
    case WriteFails =>
      (b.(auth := b.auth[uid := map[Email := Str(email), DisplayName := Str(info.firstName + " " + info.lastName)]]), true)
    case NoFailure =>
      (Backend(b.auth[uid := map[Email := Str(email), DisplayName := Str(info.firstName + " " + info.lastName)]],
               b.users[uid := NewUserData(uid, email, info, dobIso, createdAt)]), false)
  }

  /** The keys `updateProfileInfo` forwards to the auth layer: the display
      name and the photo, each when present in `updates` (`null` counts as
      present). */
  function AuthUpdates(updates: Doc): (r: Doc)
    ensures r.Keys == updates.Keys * {DisplayName, PhotoURL}
    ensures forall k :: k in r ==> r[k] == updates[k]
    ensures r != map[] <==> DisplayName in updates || PhotoURL in updates
  {
    var r := map k | k in updates && (k == DisplayName || k == PhotoURL) :: updates[k];
    assert DisplayName in updates ==> DisplayName in r;
    assert PhotoURL in updates ==> PhotoURL in r;
    r
  }

  /** What `updateProfileInfo` sent: the auth-layer update if it called
      `updateProfile`, and whether it reached the document write. */
  datatype Update = Update(backend: Backend, authCall: Option<Doc>, wrote: bool)

  /** `updateProfileInfo(updates)` for the signed-in `user`: forward the
      display name and photo to the auth layer when there are any, then
      merge `updates` into the user's document. A throw from the auth call
      skips the write. */
  function UpdateProfileInfo(b: Backend, user: Option<string>, updates: Doc, authFails: bool, writeFails: bool): (r: Update)
    ensures user.None? ==> r == Update(b, None, false)
    ensures r.authCall.Some? <==> user.Some? && (DisplayName in updates || PhotoURL in updates)
    ensures r.authCall.Some? ==> r.authCall.value == AuthUpdates(updates)
    ensures r.wrote <==> user.Some? && !(r.authCall.Some? && authFails) && !writeFails
    ensures r.wrote ==> user.value in r.backend.users && r.backend.users[user.value] == Merge(Lookup(b.users, user.value), updates)
    ensures !r.wrote ==> r.backend.users == b.users
    ensures forall v :: user != Some(v) ==> Lookup(r.backend.users, v) == Lookup(b.users, v)
    ensures forall v :: user != Some(v) ==> Lookup(r.backend.auth, v) == Lookup(b.auth, v)
  {
    if user.None? then Update(b, None, false)
    else
      var u := user.value;
      var forwarded := AuthUpdates(updates);
      var call := if forwarded != map[] then Some(forwarded) else None;
      if call.Some? && authFails then Update(b, call, false)
      else
        var afterAuth := if call.Some? then b.(auth := b.auth[u := Merge(Lookup(b.auth, u), forwarded)]) else b;
        if writeFails then Update(afterAuth, call, false)
        else Update(afterAuth.(users := afterAuth.users[u := Merge(Lookup(b.users, u), updates)]), call, true)
  }

  /** A written update leaves every field it does not name as it was, and
      the auth layer then holds the same display name and photo as the
      document for every key the update names. */
  lemma UpdateKeepsOtherFields(b: Backend, u: string, updates: Doc, authFails: bool, writeFails: bool)
    requires u in b.users
    ensures var r := UpdateProfileInfo(b, Some(u), updates, authFails, writeFails);
      r.wrote ==>
        && (forall k :: k in b.users[u] && k !in updates ==> r.backend.users[u][k] == b.users[u][k])
        && (forall k :: k in updates && (k == DisplayName || k == PhotoURL) ==>
              r.backend.auth[u][k] == r.backend.users[u][k])
  {
    var r := UpdateProfileInfo(b, Some(u), updates, authFails, writeFails);
    if r.wrote && (DisplayName in updates || PhotoURL in updates) {
      assert DisplayName in AuthUpdates(updates) || PhotoURL in AuthUpdates(updates);
    }
  }

  /** The result of `useAuth()`: the context value, or the error thrown. */
  datatype Hook = Provided(session: Session) | Throws(message: string) | Undefined

  /** `useAuth` of `authContext.tsx`: outside a provider it throws. */
  function UseAuthChecked(provided: Option<Session>): (r: Hook)
    ensures provided.Some? <==> r.Provided?
    ensures provided.Some? ==> r.session == provided.value
    ensures provided.None? ==> r == Throws("useAuth must be used within an AuthContextProvider")
  {
    if provided.Some? then Provided(provided.value)
    else Throws("useAuth must be used within an AuthContextProvider")
  }

  /** `useAuth` of `authContex.js`: outside a provider it yields `undefined`
      (the context has no default value) and throws nothing. */
  function UseAuthUnchecked(provided: Option<Session>): (r: Hook)
    ensures !r.Throws?
    ensures provided.Some? <==> r.Provided?
    ensures provided.Some? ==> r.session == provided.value
  {
    if provided.Some? then Provided(provided.value) else Undefined
  }

  /** The two hooks agree inside a provider and differ only outside it. */
  lemma UseAuthVariants(provided: Option<Session>)
    ensures UseAuthChecked(provided) == UseAuthUnchecked(provided) <==> provided.Some?
  {
  }
}
