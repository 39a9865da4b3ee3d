# Keepto client logic in Dafny

Keepto is a React Native social app on Firebase. The backend does most of the work. What stays in the client is the decision logic around the backend calls, and that is what this project models. It covers four groups:

- **Account forms.** The sign-up screen (`SignupScreen.tsx`), the older sign-up screen (`Signup.tsx`) and the sign-in screen (`SignIn.tsx`). This includes:
  - the email, name and phone regular expressions, written as predicates;
  - JavaScript's `trim()` and its `\s` white-space set;
  - the password-strength meter;
  - the whole-years age;
  - the per-field error record;
  - the two submit handlers: a short-circuit `&&` chain in `Signup.tsx`, and two validations that both always run in `SignIn.tsx`.
- **The session.** The authentication context (`authContext.tsx`, and its JavaScript copy `authContex.js`, which `App.tsx` mounts). This includes:
  - the auth-state callback, as a state machine over `{ user, userData, loading }` plus the profile listeners it installs;
  - the profile record `signUp` writes;
  - how `updateProfileInfo` splits an update between the auth layer and the `users` document.
- **Content.** `posts` is modelled as one store that holds each post's counters and its comments. This includes:
  - creating a post (`CreatePost.tsx`);
  - sending a comment in one transaction (`CommentsScreen.tsx`);
  - the comment author listeners and how author names are shown;
  - the two profile editors (`EditProfileScreen.tsx`, `Profile.tsx`).
- **Chat list.** Picking the other participant, the display fallbacks, and the query listener (`ChatListScreen.tsx`).

Modules follow the source files:

| module | file | models |
|---|---|---|
| `Js` | `js.dfy` | JavaScript truthiness, `\s`, `trim()`, `\|\|` fallbacks |
| `Patterns` | `patterns.dfy` | the three regular expressions and the strength character classes |
| `Strength` | `strength.dfy` | `getStrength` (identical in both sign-up screens) |
| `Dates` | `dates.dfy` | `calculateAge` (identical in both sign-up screens) |
| `Forms` | `forms.dfy` | field names, error record, rules shared by the three screens |
| `SignupScreen` | `signup_screen.dfy` | `SignupScreen.tsx` |
| `Signup` | `signup_legacy.dfy` | `Signup.tsx` |
| `SignIn` | `sign_in.dfy` | `SignIn.tsx` |
| `UserDoc` | `profile_doc.dfy` | the `UserData` document and merge writes |
| `AuthContext` | `auth_context.dfy` | `authContext.tsx` / `authContex.js` |
| `Cloudinary` | `cloudinary.dfy` | the upload's outcome |
| `Posts` | `posts.dfy` | the posts/comments store and its count invariant |
| `JsSort` | `js_sort.dfy` | `Array.from(new Set(…))` and the default `sort()` |
| `Comments` | `comments.dfy` | `CommentsScreen.tsx` |
| `CreatePost` | `create_post.dfy` | `CreatePost.tsx` |
| `ProfileForms` | `profile_forms.dfy` | the bio box and the photo actions (same code in both editors) |
| `EditProfile` | `edit_profile.dfy` | `EditProfileScreen.tsx` |
| `ProfileTab` | `profile_tab.dfy` | `Profile.tsx` |
| `ChatList` | `chat_list.dfy` | `ChatListScreen.tsx` |

Conventions:

- **Backend calls are parameters.** Every call to Firebase, to the upload service, or to `new Date()` is a parameter of the function that makes it. These parameters are:
  - `today`;
  - the fresh document id;
  - whether a write or transaction succeeds;
  - the upload's URL or failure;
  - the incoming snapshots, as events.
- **JavaScript `undefined` and `null`** are `None` in an `Option`.
- **A document** is a map from field name to value. A key is absent exactly when the field is `undefined`, so partial updates are documents too.
- **The two auth context files** agree line for line in the callback, `signUp` and `updateProfileInfo`. They differ only in `useAuth`, and both versions of `useAuth` are modelled.
- **`s.length` is counted in UTF-16 code units** (`Js.Length`), as JavaScript does: a character outside the Basic Multilingual Plane, such as an emoji, counts two.

## Model

| member | source | states |
|---|---|---|
| Js.TrimStartSpec | src/screens/SignupScreen.tsx:84 | `trimStart` keeps a suffix, drops only white space, and leaves no white space in front |
| Js.TrimEndSpec | src/screens/SignupScreen.tsx:84 | `trimEnd` keeps a prefix, drops only white space, and leaves no white space at the back |
| Js.TrimSpec | src/screens/SignupScreen.tsx:84 | `trim()` is a middle slice with all-white-space margins, and it starts and ends with a non-space |
| Js.BlankIffAllSpace | src/screens/SignupScreen.tsx:84 | `!value.trim()` holds exactly when every character is white space |
| Js.OrText | src/screens/CommentsScreen.tsx:110 | `v \|\| 'literal'` yields `v` when truthy, the literal otherwise; the result is empty only when `v` is falsy and the literal is `''` |
| Js.OrOpt | src/screens/CommentsScreen.tsx:111 | `v \|\| w` yields `v` when truthy, otherwise `w` itself (falsy or not); the result is truthy iff `v` or `w` is |
| Patterns.RegexToShape | src/screens/SignupScreen.tsx:38 | an address the email regex accepts has no white space, one `@` with text before it, and a later `.` with a character on each side |
| Patterns.ShapeToRegex | src/screens/SignupScreen.tsx:38 | every string of that shape is accepted by the email regex |
| Patterns.EmailRegexShape | src/screens/SignupScreen.tsx:38 | the email regex accepts exactly the strings of that shape |
| Patterns.EmailNotBlank | src/screens/SignIn.tsx:5 | whatever the email regex accepts passes the blank test |
| Strength.StrengthByLength | src/screens/SignupScreen.tsx:60-76 | the empty password shows no label; a `length` (UTF-16 code units) of 1 to 5 shows "Too Short"; 6 or more never does |
| Strength.EmojiCountTwice | src/screens/SignupScreen.tsx:61-72 | three emoji have `length` 6, so the meter rates them "Weak", not "Too Short" |
| Strength.StrengthByContent | src/screens/SignupScreen.tsx:62-74 | "Strong" iff `length` at least 10 with a letter, a digit and a symbol; "Medium" needs `length` at least 8 with a letter and a digit; other passwords of `length` 6 or more are "Weak" |
| Strength.StrengthMonotone | src/screens/Signup.tsx:76-97 | typing more characters never lowers the meter |
| Dates.AgeIsYearDifference | src/screens/SignupScreen.tsx:50-58 | age is the year difference, less one exactly when this year's birthday is still ahead |
| Dates.AgeAtLeast | src/screens/Signup.tsx:65-73 | age is at least n exactly when today is not before the n-th birthday |
| Dates.BirthdayCounts | src/screens/SignupScreen.tsx:50-58 | on the n-th birthday the age is n |
| Forms.Record | src/screens/SignupScreen.tsx:138-139 | recording a message changes only that field's entry, and answers whether it is empty |
| Forms.EmailRuleMeaning | src/screens/SignupScreen.tsx:97-103 | blank email gets "required"; the rule passes exactly for addresses of the worded shape |
| Forms.PasswordRuleMeaning | src/screens/SignIn.tsx:27-33 | blank gets "required"; otherwise a `length` under 6 (UTF-16 code units) gets the length message; passing means not all white space and `length` 6 or more |
| Forms.ConfirmRuleMeaning | src/screens/SignupScreen.tsx:111-117 | the confirmation passes exactly when it is not blank and equals the password |
| SignupScreen.NameRuleMeaning | src/screens/SignupScreen.tsx:83-96 | blank gets "required"; otherwise a name is rejected iff some character is neither an ASCII letter nor white space |
| SignupScreen.NumberRuleMeaning | src/screens/SignupScreen.tsx:118-124 | blank gets "required"; otherwise rejected iff some character is not 0-9; passing means non-empty and all digits |
| SignupScreen.DobRuleMeaning | src/screens/SignupScreen.tsx:128-133 | the date rule passes exactly from the 18th birthday on, the birthday included |
| SignupScreen.ValidateField | src/screens/SignupScreen.tsx:80-140 | only `errors[field]` changes, to the rule's message; true iff it is empty. A name passes iff not blank and only letters and white space; an address iff it has the shape; a password iff not blank with `length` 6 or more; the confirmation iff not blank and equal to the password; a phone iff non-empty and all digits; a gender iff truthy; a date iff age 18 or more; the terms iff ticked |
| SignupScreen.RulePasses | src/screens/SignupScreen.tsx:80-137 | each field's rule gives no message exactly under that field's condition above |
| SignupScreen.FormValidGuarantees | src/screens/SignupScreen.tsx:142-156 | an enabled submit means: password of `length` 6 or more equal to its confirmation, non-empty all-digit phone, a gender, age 18 or more, terms accepted, address of the right shape, no recorded error |
| Signup.LooseRules | src/screens/Signup.tsx:104-109 | names and phone need only be non-blank, and gender only non-null |
| Signup.DobRuleIgnoresArgument | src/screens/Signup.tsx:137-142 | the date rule judges the stored date of birth and gives the same verdict whatever it is passed |
| Signup.ScreenRulesRefineLegacy | src/screens/Signup.tsx:104-136 | whatever the newer screen accepts for names, phone and gender, this screen accepts too |
| Signup.EmptyGenderPasses | src/screens/Signup.tsx:134-136 | the empty gender passes here and fails on the newer screen |
| Signup.DigitInName | src/screens/Signup.tsx:104-106 | a name with a digit passes here and fails on the newer screen |
| Signup.LetterInNumber | src/screens/Signup.tsx:131-133 | a phone number with a letter passes here and fails on the newer screen |
| Signup.ValidateField | src/screens/Signup.tsx:101-149 | only `errors[field]` changes, to the rule's message; true iff it is empty. Names and phone pass iff not blank; an address iff it has the shape; a password iff not blank with `length` 6 or more; the confirmation iff not blank and equal to the password state; gender iff not null; the date iff the stored date of birth gives 18 or more, whatever is passed; the terms iff ticked |
| Signup.RulePasses | src/screens/Signup.tsx:101-146 | each field's rule gives no message exactly under that field's condition above |
| Signup.ValueOf | src/screens/Signup.tsx:154-163 | each call of the chain is passed a value of the kind its rule expects |
| Signup.FirstFailure | src/screens/Signup.tsx:154-163 | the chain's stopping point: every earlier message is empty and the one there is not |
| Signup.RunChain | src/screens/Signup.tsx:154-163 | the `&&` chain is true iff every message is empty; fields up to the first failure get their messages; later fields keep their old entries |
| Signup.Submit | src/screens/Signup.tsx:165-188 | `signUp` is called with the typed email, password and info iff every message is empty; it succeeds iff called and does not throw; terms are kept; a passing chain over every field leaves every error entry empty |
| Signup.CalledIffAllRulesPass | src/screens/Signup.tsx:154-165 | over any distinct field list, the chain lets `signUp` be called exactly when every field's rule passes on the form |
| Signup.SignUpCalledIffAllPass | src/screens/Signup.tsx:154-171 | `signUp` is called exactly when each of the nine rules, in order, passes on the form |
| Signup.SignUpCalledIffFieldsPass | src/screens/Signup.tsx:100-171 | `signUp` is called exactly when both names and the phone are non-blank, the email has the address shape, the password has at least six UTF-16 units and is repeated, a gender (`''` included) is chosen, the stored date of birth is 18 or more years back, and the terms are accepted |
| Signup.ChainClearsAll | src/screens/Signup.tsx:154-163 | a chain over every field where every call passes leaves every entry empty |
| Signup.ValidSubmissionResets | src/screens/Signup.tsx:165-188 | after a valid submission, whether or not `signUp` threw: typed fields are empty, gender is null, date of birth is today, loading is off, errors are empty, terms are kept |
| Signup.InvalidSubmissionStops | src/screens/Signup.tsx:154-165 | a failed chain changes only errors: earlier fields empty, the failing one its message, later ones unchanged |
| SignIn.ValidateField | src/screens/SignIn.tsx:17-37 | only the named field's entry changes, to the rule's message; true iff it is empty: an address iff it has the shape, a password iff not blank with `length` 6 or more, any other field always |
| SignIn.HandleSignIn | src/screens/SignIn.tsx:39-53 | both entries are refreshed on every submit; `signIn` is called iff both pass; loading ends false; a throw alerts its message or "Login failed" |
| SignIn.SignInCalledIff | src/screens/SignIn.tsx:42-47 | `signIn` is reached exactly for an address of the right shape and a non-blank password of `length` 6 or more |
| UserDoc.ValueOf | src/context/authContext.tsx:66 | `info.gender` as stored: `null` for `null`, any string (`''` included) as itself; read back by ValueOfReadsBack |
| UserDoc.ValueOfReadsBack | src/context/authContext.tsx:66 | a value written as `null` or a string reads back through `?.` as the optional string it came from |
| UserDoc.StrOf | src/screens/CommentsScreen.tsx:110-111 | definition of `userData?.field` for string fields; used by ValueOfReadsBack and the screens' Init lemmas |
| UserDoc.Merge | src/context/authContext.tsx:92-93 | a merge write overwrites the keys it names and keeps every other stored key |
| UserDoc.Lookup | src/context/authContext.tsx:92 | definition of reading the document at a uid; used by the auth context's profile listener |
| UserDoc.MergeIdempotent | src/context/authContext.tsx:93 | writing the same merge twice equals writing it once |
| UserDoc.MergeSequence | src/context/authContex.js:88-89 | two merges in a row equal one merge of the later update over the earlier |
| AuthContext.Step | src/context/authContext.tsx:21-37 | listeners never go away; loading never comes back; a callback sets the user; only a sign-out or an existing snapshot seen by a listener changes the profile |
| AuthContext.StepEffects | src/context/authContext.tsx:23-36 | sign-out clears user and profile and ends loading; sign-in keeps the old profile and the loading flag; a missing document changes nothing; a watched snapshot sets the profile |
| AuthContext.LoadingNeedsSignOut | src/context/authContex.js:20-35 | loading stays true as long as no signed-out callback arrives |
| AuthContext.SignedInStartStaysLoading | src/context/authContext.tsx:32-36 | starting signed in leaves loading on even after the profile arrives |
| AuthContext.ListenersAccumulate | src/context/authContext.tsx:27-32 | an installed profile listener is never removed |
| AuthContext.ProfileAfterSignOut | src/context/authContext.tsx:27-34 | after sign-out, the former user's snapshot installs a profile with nobody signed in |
| AuthContext.ProfileOfOtherUser | src/context/authContex.js:25-30 | after switching accounts, the first user's snapshot replaces the second user's profile |
| AuthContext.StepFixed | src/context/authContext.tsx:21-37 | corrected callback: every auth callback ends loading; a snapshot changes the profile only through a listener |
| AuthContext.StepFixedCoherent | src/context/authContext.tsx:21-37 | the corrected callback keeps exactly one profile listener, on the signed-in user's document, and none and no profile when signed out; a snapshot changes the profile only if it is of the signed-in user's document |
| AuthContext.FixedSwitchShowsPreviousProfile | src/context/authContext.tsx:22-35 | even with the correction, after a direct switch from `a` to `b` the profile shown is still `a`'s until `b`'s document arrives, while a late snapshot of `a` is ignored |
| AuthContext.RunFixedCoherent | src/context/authContext.tsx:21-37 | with the correction, coherence holds after any sequence of events |
| AuthContext.RunFixedResolves | src/context/authContext.tsx:32-36 | with the correction, loading is false after the first auth callback of either kind |
| AuthContext.FixedStaysResolved | src/context/authContext.tsx:36 | with the correction, loading never turns back on |
| AuthContext.NewUserData | src/context/authContext.tsx:59-71 | the profile record: all eleven fields; display name "first last"; bio empty; photo null |
| AuthContext.SignUp | src/context/authContext.tsx:50-77 | create, name and write in order, a throw skipping the rest; on success the auth display name equals the document's; other uids untouched |
| AuthContext.AuthUpdates | src/context/authContext.tsx:83-87 | the auth update holds exactly the display name and photo keys present in `updates` (null counts) and is non-empty iff one is |
| AuthContext.UpdateProfileInfo | src/context/authContext.tsx:79-94 | no-op without a user; the auth call is made iff a display name or photo is present; the document gets a merge; other uids untouched |
| AuthContext.UpdateKeepsOtherFields | src/context/authContex.js:75-89 | after a written update, unnamed fields keep their values and auth and document agree on the forwarded keys |
| AuthContext.UseAuthChecked | src/context/authContext.tsx:111-117 | outside a provider `useAuth` throws its message; inside it returns the context |
| AuthContext.UseAuthUnchecked | src/context/authContex.js:107 | outside a provider `useAuth` yields `undefined` and never throws |
| AuthContext.UseAuthVariants | src/context/authContex.js:107 | the two hooks agree exactly inside a provider |
| JsSort.LessOrder | src/screens/CommentsScreen.tsx:95 | the default sort order (strings ascending, `undefined` last) is a strict total order |
| JsSort.Dedup | src/screens/CommentsScreen.tsx:81 | `Array.from(new Set(s))` has no repeats and holds exactly the values of `s` |
| JsSort.InsertSpec | src/screens/CommentsScreen.tsx:95 | inserting a new value into an ascending list keeps it ascending with that value added |
| JsSort.SortSpec | src/screens/CommentsScreen.tsx:95 | sorting distinct values gives the same values, ascending |
| JsSort.AscendingUnique | src/screens/CommentsScreen.tsx:95 | two ascending lists with the same values are equal |
| JsSort.SortedSetDependsOnValues | src/screens/CommentsScreen.tsx:95 | sorted distinct values depend only on which values occur |
| Comments.NewComment | src/screens/CommentsScreen.tsx:108-114 | a new comment: the user's id, the trimmed text, the display name or "Unknown", the photo or null; the name is never empty |
| Comments.CommentTextTrimmed | src/screens/CommentsScreen.tsx:98-112 | a sent comment's text is not empty and has no white space at either end |
| Comments.SendComment | src/screens/CommentsScreen.tsx:97-129 | blank text or no user is a no-op; otherwise comment and count+1 commit together or not at all; input cleared only on commit; sending false; alert iff failed |
| Comments.SendKeepsConsistent | src/screens/CommentsScreen.tsx:105-120 | sending keeps every post's `commentsCount` equal to its number of comments |
| Comments.AuthorIds | src/screens/CommentsScreen.tsx:81 | definition of `comments.map(c => c.userId)`; stated by SubscribedIds and KeyDependsOnAuthors |
| Comments.TruthiesSpec | src/screens/CommentsScreen.tsx:81 | filtering truthy ids from distinct values gives distinct ids, exactly the non-empty ones present |
| Comments.DistinctAuthors | src/screens/CommentsScreen.tsx:81 | the subscribed ids are the reference dedup-then-filter, each once, exactly the truthy commenter ids |
| Comments.SubscribedIds | src/screens/CommentsScreen.tsx:81-83 | the subscribed ids are distinct and are exactly the truthy commenter ids |
| Comments.KeyAscending | src/screens/CommentsScreen.tsx:95 | the effect key lists each commenter id once, ascending |
| Comments.KeyDependsOnAuthors | src/screens/CommentsScreen.tsx:95 | the key depends only on which ids comment |
| Comments.SeenAuthorKeepsKey | src/screens/CommentsScreen.tsx:95 | a new comment by an existing commenter, at either end, leaves the key unchanged |
| Comments.OnAuthorSnapshot | src/screens/CommentsScreen.tsx:84-90 | an existing profile snapshot sets that author's entry; no other entry changes |
| Comments.ShownName | src/screens/CommentsScreen.tsx:159-160 | live display name, else stored author name, else "User"; never empty |
| Comments.ShownPhoto | src/screens/CommentsScreen.tsx:161 | live photo, else stored photo |
| Comments.LiveNameOverrides | src/screens/CommentsScreen.tsx:86-89 | once the author's profile arrives with a name, their comments show it |
| CreatePost.NewPost | src/screens/CreatePost.tsx:67-76 | counters 0, no comments, trimmed text, the image URL, the name or "Anonymous", the photo or null |
| CreatePost.HandlePost | src/screens/CreatePost.tsx:54-88 | empty post is refused; upload only with an image; written iff the upload (if any) succeeds, the author id is defined and the backend accepts; cleared on success, kept on failure; loading false |
| CreatePost.NoProfileNoPost | src/screens/CreatePost.tsx:62-87 | before the profile has loaded every post fails: nothing written, the image still uploaded, text and image kept, error alert |
| CreatePost.ButtonMatchesGuard | src/screens/CreatePost.tsx:109 | when not loading, the button is disabled exactly when `handlePost` would refuse |
| CreatePost.PostKeepsConsistent | src/screens/CreatePost.tsx:67-76 | posting keeps every post's count equal to its comments |
| CreatePost.ImageOnlyPost | src/screens/CreatePost.tsx:55-76 | an image with blank text is posted, with empty content |
| ProfileForms.OnBioChange | src/screens/EditProfileScreen.tsx:228-230 | an edit is taken iff its `length` (UTF-16 code units) is at most 160 |
| ProfileForms.BioStaysWithinLimit | src/screens/Profile.tsx:189-191 | a bio of `length` within 160 stays within 160 whatever is typed |
| ProfileForms.CounterAfterEdit | src/screens/EditProfileScreen.tsx:236 | the counter shows the max style after an edit iff the edit's `length` is exactly 160, or it was refused while already at 160 |
| ProfileForms.UploadPhoto | src/screens/EditProfileScreen.tsx:107-118 | the profile is updated only after the upload returns a URL, with exactly that URL as the photo |
| ProfileForms.RemovePhoto | src/screens/EditProfileScreen.tsx:131 | removal sends `{ photoURL: null }` |
| ProfileForms.RemovePhotoClears | src/screens/Profile.tsx:114 | a completed removal leaves null as the photo in auth and document, and other fields unchanged |
| ProfileForms.UploadPhotoSets | src/screens/Profile.tsx:90-101 | a completed upload sets the URL as the photo in auth and document |
| EditProfile.Init | src/screens/EditProfileScreen.tsx:36-43 | with a profile, each box takes the stored value or `''`; without one nothing changes |
| EditProfile.InitThenPayload | src/screens/EditProfileScreen.tsx:36-59 | loading trimmed names and saving unchanged writes back those names and "first last" |
| EditProfile.SavePayload | src/screens/EditProfileScreen.tsx:53-59 | the payload: five trimmed fields, display name made of the trimmed names |
| EditProfile.HandleSave | src/screens/EditProfileScreen.tsx:45-68 | a blank name refuses the save with no update; otherwise the payload is sent and loading ends |
| EditProfile.SaveComposesDisplayName | src/screens/EditProfileScreen.tsx:53-59 | after a saved edit the names are trimmed and non-empty, and display name is "first last" in both document and auth |
| EditProfile.SuccessWithoutUser | src/screens/EditProfileScreen.tsx:53-62 | with nobody signed in, the save writes nothing yet reports success |
| ProfileTab.Init | src/screens/Profile.tsx:26-31 | with a profile, display name and bio take the stored values or `''` |
| ProfileTab.InitThenSave | src/screens/Profile.tsx:26-44 | loading a stored profile with trimmed name and bio and saving it unchanged is accepted for a non-empty name, and the merge leaves the document as it was |
| ProfileTab.SavePayload | src/screens/Profile.tsx:41-44 | the payload holds only the trimmed display name and bio |
| ProfileTab.HandleSave | src/screens/Profile.tsx:33-51 | a blank display name refuses the save; otherwise the payload is sent and loading ends |
| ProfileTab.SaveKeepsNames | src/screens/Profile.tsx:41-44 | a save sets the display name in document and auth and keeps every field except display name and bio, first and last name included |
| ChatList.OnUser | src/screens/ChatListScreen.tsx:34-56 | a change of user unsubscribes the previous listener; a listener is installed iff someone is signed in; rows and spinner unchanged |
| ChatList.OnSnapshot | src/screens/ChatListScreen.tsx:43-49 | a snapshot of the installed listener replaces the rows with its documents and ends loading |
| ChatList.OnError | src/screens/ChatListScreen.tsx:50-53 | an error of the installed listener keeps the rows and ends loading |
| ChatList.Apply | src/screens/ChatListScreen.tsx:34-56 | callbacks reach the screen only while a listener is installed; a user change runs the effect |
| ChatList.NoUserKeepsLoading | src/screens/ChatListScreen.tsx:30-35 | with no signed-in user, after any sequence of events the spinner still runs, the rows are empty and nothing listens |
| ChatList.SignOutDetaches | src/screens/ChatListScreen.tsx:35-55 | after sign-out, later callbacks change neither the rows nor the spinner |
| ChatList.FirstSnapshotShows | src/screens/ChatListScreen.tsx:34-49 | a signed-in user's first snapshot fills the rows and stops the spinner |
| ChatList.FirstOther | src/screens/ChatListScreen.tsx:60 | `find` stops at the first id different from the current uid |
| ChatList.OtherParticipant | src/screens/ChatListScreen.tsx:60 | the other participant is a member different from me; none iff every member is me |
| ChatList.OtherOfTwo | src/screens/ChatListScreen.tsx:39-60 | a returned chat that holds someone besides me names a participant other than me |
| ChatList.OtherData | src/screens/ChatListScreen.tsx:61 | the other participant's stored copy, or `{}`; anything non-empty shown is the stored copy of a participant other than me |
| ChatList.RenderRow | src/screens/ChatListScreen.tsx:69-77 | name or "User", photo or app icon, last message or "No messages yet" |
| ChatList.RowShowsTheOther | src/screens/ChatListScreen.tsx:60-74 | in a chat between me and you, stored in either order, the row shows your stored name and photo (or the fallbacks), never mine |
| ChatList.MissingDataFallsBack | src/screens/ChatListScreen.tsx:61-74 | a chat without stored profiles shows "User" and the icon |
| Js.IsSpace | src/screens/SignupScreen.tsx:38 | definition of the `\s` class and of what `trim()` strips: the ECMAScript white-space and line-terminator characters; used by TrimSpec and BlankIffAllSpace |
| Js.Trim | src/screens/SignupScreen.tsx:84 | definition of `trim()`; its meaning is stated by TrimSpec |
| Js.Blank | src/screens/SignupScreen.tsx:84 | definition of `!value.trim()`; its meaning is stated by BlankIffAllSpace |
| Js.Length | src/screens/SignIn.tsx:30 | definition of `s.length` in UTF-16 code units; stated by LengthBounds and LengthAppend |
| Js.LengthBounds | src/screens/SignupScreen.tsx:61 | `length` lies between the character count and twice it, is 0 only for `''`, and equals the character count iff no character lies outside the Basic Multilingual Plane |
| Js.LengthAppend | src/screens/Profile.tsx:189-191 | the `length` of a concatenation is the sum of the lengths |
| Patterns.MatchesEmail | src/screens/SignupScreen.tsx:38 | definition of the email regex test; its meaning is stated by EmailRegexShape |
| Patterns.MatchesName | src/screens/SignupScreen.tsx:39 | definition of the name regex test; stated by NameRuleMeaning |
| Patterns.MatchesNumber | src/screens/SignupScreen.tsx:40 | definition of the number regex test; stated by NumberRuleMeaning |
| Strength.GetStrength | src/screens/SignupScreen.tsx:60-76 | definition of `getStrength`; stated by StrengthByLength, StrengthByContent and StrengthMonotone |
| Dates.CalculateAge | src/screens/SignupScreen.tsx:50-58 | definition of `calculateAge`; stated by AgeIsYearDifference and AgeAtLeast |
| Forms.EmailRule | src/screens/SignIn.tsx:20-26 | definition of the email case of `validateField`; stated by EmailRuleMeaning |
| Forms.PasswordRule | src/screens/SignIn.tsx:27-33 | definition of the password case; stated by PasswordRuleMeaning |
| Forms.ConfirmRule | src/screens/SignupScreen.tsx:111-117 | definition of the confirmation case; stated by ConfirmRuleMeaning |
| Forms.TermsRule | src/screens/SignupScreen.tsx:134-136 | definition of the terms case; passes iff the box is ticked |
| SignupScreen.NameRule | src/screens/SignupScreen.tsx:83-96 | definition of the name cases; stated by NameRuleMeaning |
| SignupScreen.NumberRule | src/screens/SignupScreen.tsx:118-124 | definition of the phone case; stated by NumberRuleMeaning |
| SignupScreen.GenderRule | src/screens/SignupScreen.tsx:125-127 | definition of `if (!value)`: `null` and `''` fail; stated by ValidateField |
| SignupScreen.DobRule | src/screens/SignupScreen.tsx:128-133 | definition of the date case; stated by DobRuleMeaning |
| SignupScreen.Rule | src/screens/SignupScreen.tsx:80-137 | definition of the message `validateField` computes per field; stated by ValidateField and the rule lemmas |
| SignupScreen.IsFormValid | src/screens/SignupScreen.tsx:142-156 | definition of `isFormValid`; stated by FormValidGuarantees |
| SignupScreen.SubmitEnabled | src/screens/SignupScreen.tsx:396 | definition of the submit button's gate `!(!isFormValid \|\| loading)` |
| Signup.RequiredRule | src/screens/Signup.tsx:104-109 | definition of the name and phone cases; stated by LooseRules |
| Signup.GenderRule | src/screens/Signup.tsx:134-136 | definition of `if (value === null)`; stated by LooseRules and EmptyGenderPasses |
| Signup.DobRule | src/screens/Signup.tsx:137-142 | definition of the date case on the stored `dob`; stated by DobRuleIgnoresArgument |
| Signup.Rule | src/screens/Signup.tsx:101-146 | definition of the message per field; stated by ValidateField and ScreenRulesRefineLegacy |
| Signup.MessagesOf | src/screens/Signup.tsx:154-163 | one message per field of the chain, in order: the i-th is the rule's verdict on the i-th field's current value |
| Signup.HandleSignup | src/screens/Signup.tsx:151-192 | definition: Submit over `Order` with the messages of the nine calls; stated by SignUpCalledIffAllPass and Submit |
| SignIn.Rule | src/screens/SignIn.tsx:17-34 | definition of the sign-in `validateField` cases; stated by SignInCalledIff |
| AuthContext.Run | src/context/authContext.tsx:21-37 | definition of the as-written callbacks over a sequence of events; stated by LoadingNeedsSignOut and ListenersAccumulate |
| AuthContext.RunFixed | src/context/authContext.tsx:21-37 | definition of the corrected callbacks over a sequence of events; stated by RunFixedCoherent and RunFixedResolves |
| JsSort.Less | src/screens/CommentsScreen.tsx:95 | definition of the default sort order; stated by LessOrder |
| JsSort.Sort | src/screens/CommentsScreen.tsx:95 | definition of `sort()` on distinct values; stated by SortSpec and AscendingUnique |
| Comments.SubscriptionKey | src/screens/CommentsScreen.tsx:95 | definition of the effect key; stated by KeyAscending, KeyDependsOnAuthors and SeenAuthorKeepsKey |
| Comments.AuthorOf | src/screens/CommentsScreen.tsx:159 | definition of `authors[item.userId]`; used by ShownName and LiveNameOverrides |
| CreatePost.EmptyPost | src/screens/CreatePost.tsx:55 | definition of the guard `!post.trim() && !image`; stated by ButtonMatchesGuard |
| CreatePost.ButtonDisabled | src/screens/CreatePost.tsx:109 | definition of the button's `disabled` prop; stated by ButtonMatchesGuard |
| CreatePost.UidDefined | src/screens/CreatePost.tsx:67 | definition: `userData?.uid` is not `undefined`; stated by HandlePost and NoProfileNoPost |
| ChatList.Run | src/screens/ChatListScreen.tsx:34-56 | definition of the screen over a sequence of events; stated by NoUserKeepsLoading, SignOutDetaches and FirstSnapshotShows |

## Left out

- Firebase itself:
  - `onAuthStateChanged`, `onSnapshot`, `setDoc`, `addDoc`, `runTransaction`, `serverTimestamp` and `increment` become events and parameters.
  - Delivery order, retries, security rules and listener lifetimes inside the backend are not modelled.
  - Snapshots arrive one at a time. Async interleaving of callbacks is not modelled.
- The upload in `src/utils/cloudinary.ts` is an HTTP exchange. Only its outcome, a URL or a throw, is modelled.
- Dates:
  - `new Date()` is the `today` parameter.
  - `toISOString` and the server timestamps are opaque strings passed in.
  - Locale formatting is display only.
- `JsSort.StrLess` compares characters as code points. JavaScript's `sort()` compares UTF-16 code units, so the two orders differ between supplementary-plane characters and those from U+E000 to U+FFFF.
- `JsSort.Sort`: it is an insertion sort. This matches the engine's sort because the values sorted are distinct and there are no ties.
- `Comments.SubscriptionKey`: the array stands for its `JSON.stringify` text, which is one-to-one on arrays of distinct strings plus at most one `undefined`.
- `Comments.AuthorOf`: for a comment without `userId`, JavaScript looks up the key `"undefined"` in `authors`. The model returns no author, since the listener only ever stores truthy ids.
- `ChatList.OtherData`: for a chat where every participant is the current user, JavaScript looks up `participantData["undefined"]`. The model shows `{}`.
- `CreatePost.HandlePost` assumes Firestore's default settings, under which `addDoc` rejects a field whose value is `undefined` (here `userId` before the profile has loaded). The Firestore set-up is not part of this model; with `ignoreUndefinedProperties` enabled such a post would be written without an author id.
- `AuthContext.SignUp` requires the new uid to be unused; the backend guarantees this. Its `password` argument only reaches the account creation, which is a parameter here.
- `Signup.Submit` and `SignIn.HandleSignIn` model the alert only as its text or a flag.
- Not modelled:
  - `handleSignup` of `SignupScreen.tsx` (lines 158-176), which sends the form without validating again; the button gate is `IsFormValid`;
  - the date picker and radio button handlers, which clear or recheck a single entry (`Signup.tsx` 36-60, `SignupScreen.tsx` 42-48 and 178-191);
  - the post and comment list listeners of `CommentsScreen.tsx` (49-75).
- Image picking and permission dialogs, navigation, styles and themes are UI only.
- A like-toggle transaction and a chat key derived from sorted participant ids appear in no file of this app, so they are not modelled.

## Findings

| source | as written | input that shows it | evidently intended | confidence | as-written member | corrected member |
|---|---|---|---|---|---|---|
| src/context/authContext.tsx:27-32 (same in src/context/authContex.js:25-30) | the unsubscribe function is returned from an `async` auth callback whose result nobody reads, so profile listeners are never removed | sign in as `a`, sign out, then a snapshot of `users/a` arrives: `userData` is `a`'s profile with `user` null; or sign in as `a`, then `b`, then a snapshot of `users/a`: `b` sees `a`'s profile | a new session unsubscribes the previous profile listener, and sign-out removes it; the previous user's profile still shows after a direct switch until the new user's document arrives (FixedSwitchShowsPreviousProfile) | medium, not executed | AuthContext.ProfileAfterSignOut | AuthContext.RunFixedCoherent |
| src/context/authContext.tsx:32-36 (same in src/context/authContex.js:30-34) | the signed-in branch returns before `setLoading(false)`, so `loading` stays true for the whole session when the app starts signed in | start signed in, then any sequence of sign-ins and snapshots: `loading` is still true | `setLoading(false)` at line 36, placed after both branches, runs on the signed-in path too | medium, not executed | AuthContext.LoadingNeedsSignOut | AuthContext.RunFixedResolves |
