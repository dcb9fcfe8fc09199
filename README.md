# Photo-sharing app: server handlers and comment dialog, in Dafny

This project models two pieces of a small photo-sharing web application and
proves properties about them.

**The request handlers of the Express server (`webServer.js`).** The database is
replaced by an in-memory store held in the class `WebServer.Server`. The store is
a sequence of users, a sequence of photos (each photo holds its comments in
order), and the calling client's session record (`userIdRecord`).
- Three handlers change the store, so they are methods:
  - the comment append (`PostComment`);
  - the login (`Login`), which records the session user;
  - the registration (`Register`), which adds a user.
- Each of them states every outcome: the status, the message, and the exact new
  state.
- The two session gates (`hasSessionRecord`, `requireLogin`) are functions.
  Every guarded handler states that it answers 401 and changes nothing when the
  session holds no user.
- The two read endpoints are pure functions over the store:
  - `/photosOfUser/:id` is a join of photos, comments and commenters;
  - `/user/details/:id` is two `reduce` folds.
  Lemmas connect them to independent descriptions. Every served comment names a
  stored user with its `user_id`, or `{}` when there is none. The strict `>` in
  each fold picks the first photo with the largest key.

**The comment dialog (`components/CommentDialog/commentDialog.jsx`).** This is
the React component's state record, written as the class `CommentDialog.Dialog`.
Its event handlers are methods:
- typing, with `@mention` detection, a case-insensitive dropdown filter, and
  pruning of mentions that are no longer written out;
- picking a user from the dropdown;
- submitting;
- opening and closing.

The class invariant says three things. The mention list never holds an id twice.
The dropdown is only shown while a mention is being typed. A recorded mention
start is at least 1, the position just after the typed `@`. The requests a
submit would send are returned as values.

Supporting modules:
- `Sequences` has an order-preserving `Filter`, a subsequence relation, `NoDup`
  and a first-match search.
- `JsStrings` models the JavaScript string operations used:
  - `trim`, with the exact ECMAScript white-space set;
  - `toLowerCase`, ASCII only;
  - `includes`;
  - `slice`, including negative and out-of-range positions;
  - the truthiness of an optional string.

Three behaviours of the code are worth stating plainly:
- `/photosOfUser/:id` returns the owner's photos in storage order; it does not
  sort them and carries no likes.
- A comment for a missing photo is answered with 400 "Photo not found".
- A request without a `comment` field gets no reply at all. `.trim()` throws
  before the `try` of the `async` handler, and the framework does not catch the
  rejection. This is `Reply.NoReply`; what becomes of the process afterwards is
  listed under "## Left out".

Identifiers are strings.
- `mongoose.Types.ObjectId.isValid` is modelled as bson 4 defines it: 24
  hexadecimal digits, or 12 characters whose UTF-8 encoding takes 12 bytes.
- A valid request id is cast to the stored form before it is compared with
  stored ids (`WebServer.ObjectIdHex`). Hex digits are lower-cased. A 12-byte id
  becomes the hex of its bytes.
- A cast failure inside `findById` is caught and answered with 400 "An error
  occurred".

## Model

| member | source | states |
|---|---|---|
| `WebServer.HasSessionRecord` | webServer.js:119-127 | proceeds exactly when the session holds a (non-empty) user id, otherwise rejects with 401 "Unauthorized" |
| `WebServer.RequireLogin` | webServer.js:298-303 | proceeds exactly when the session holds a user id, otherwise rejects with 401 "User not logged in." |
| `WebServer.FindPhoto` | webServer.js:138 | a found position holds a photo with the requested id; no position means no photo has that id |
| `WebServer.ObjectIdHex` | webServer.js:138 | the form a valid id string is cast to before `findById` (and `Photo.find` at lines 340 and 380) compares it: 24 lower-case hex digits; for a 24-digit id its lower-cased self; for a 12-character id, digit pair `i` (high digit first) encodes the byte of character `i` |
| `WebServer.ObjectIdCastIdempotent` | webServer.js:336 | an id accepted by `ObjectId.isValid` casts to a stored form that is itself accepted and casts to itself |
| `WebServer.FindByLogin` | webServer.js:75 | a found position is the first user with that login name; no position means no user has it |
| `WebServer.LoginDecision` | webServer.js:70-83 | missing or empty `login_name`/`password` gives 400; an unknown login name gives 400 naming it; otherwise the first user with that login name decides: its password equal to the given one gives that user, a different one gives 400 "Password is incorrect. Please try again."; never anything but 200 or 400 |
| `WebServer.LoginAcceptsExactlyStoredCredentials` | webServer.js:75-86 | when login names are unique, login succeeds if and only if some stored user has that login name and that password |
| `WebServer.Server.PostComment` | webServer.js:130-160 | no session: 401, store unchanged; absent comment: no reply; whitespace-only text: 400, unchanged; malformed photo id: 400, unchanged; unknown photo: 400 "Photo not found", unchanged; otherwise 200, and exactly the target photo gains one comment at the end with the given text, time and the session user as author, all else unchanged |
| `WebServer.Server.Login` | webServer.js:67-97 | on success replies with the user's `first_name` and `_id` and records that `_id` in the session; on failure replies with the decision's 400 and leaves the session as it was; while login names are unique (which registration keeps as long as two registrations do not overlap), it succeeds exactly when both fields are present and some stored user has that login name and that password |
| `WebServer.Server.Register` | webServer.js:207-247 | a missing first name, last name or password gives 400 and adds no user; a login name already in the store gives 400 and adds no user; otherwise exactly one user with the given fields is appended and the 200 reply carries the message "User created successfully!" and its login name; unique ids and unique login names are preserved |
| `WebServer.OwnedPhotos` | webServer.js:340 | exactly the stored photos whose owner is the user, in storage order: a subsequence of the store that holds each owned photo record as many times as the store does and nothing else |
| `WebServer.CommenterIds` | webServer.js:344 | every author id of every comment on the given photos is collected |
| `WebServer.UsersWithIds` | webServer.js:345 | exactly the stored users whose id is among the commenter ids, in storage order: a subsequence of the store that holds each such user record as many times as the store does and nothing else |
| `WebServer.UserMap` | webServer.js:346 | every user's id has an entry, every entry is keyed by its own user's id, and the entry for an id is the last user carrying it |
| `WebServer.UserMapLookup` | webServer.js:345-346 | the id-to-user map has an entry for an id exactly when one of the fetched users has it, and that entry is one of those users |
| `WebServer.PhotosOfUser` | webServer.js:332-369 | no session: 401; malformed id: 400; otherwise 200 with one view per owned photo, in order, each with the photo's id, owner, file name, date and all its comments in order with their id, text and date |
| `WebServer.PhotosOfUserResolvesAuthors` | webServer.js:353-360 | each served comment's `user` is `{}` exactly when no stored user has the comment's `user_id`, and otherwise the `{_id, first_name, last_name}` of a stored user with that id (of the only one, when ids are unique) |
| `WebServer.ReduceMax` | webServer.js:390-397 | the fold yields null exactly for an empty photo list, and otherwise one of the listed photos |
| `WebServer.ReduceMaxIsFirstMax` | webServer.js:390-397 | on a non-empty list the fold returns the photo whose key is largest and which comes before every other photo with that key |
| `WebServer.UserDetails` | webServer.js:371-412 | no session: 401; malformed id: 400; otherwise 200, with both fields null exactly when the user has no photos |
| `WebServer.UserDetailsSelection` | webServer.js:389-407 | for a user with photos, `recentPhoto` is the first photo with the latest `date_time`, and `mostCommentedPhoto` is the first with the most comments, carrying its comment count |
| `JsStrings.TrimEmptyIffBlank` | webServer.js:133 | `s.trim()` is empty exactly when every character of `s` is ECMAScript white space |
| `JsStrings.Lower` | components/CommentDialog/commentDialog.jsx:74 | same length; each ASCII upper-case letter becomes its lower-case letter, every other character is kept, and no ASCII upper-case letter remains |
| `JsStrings.Slice` | components/CommentDialog/commentDialog.jsx:97 | within bounds, `slice(b, e)` is the sub-sequence from `b` to `e`; an end past the text is clamped to its length; a negative end counts from the end of the text; an empty range (end before begin, after either adjustment) gives the empty text |
| `JsStrings.SliceFrom` | components/CommentDialog/commentDialog.jsx:71 | `slice(b)` is the tail from `b` when `b` lies within the text, and empty when `b` is at or past its end |
| `JsStrings.IncludesIff` | components/CommentDialog/commentDialog.jsx:74 | `includes` holds exactly when the needle occurs at some position of the text |
| `CommentDialog.MatchingUsers` | components/CommentDialog/commentDialog.jsx:71-75 | the dropdown holds exactly the users whose lower-cased full name contains the lower-cased mention text, as a subsequence of the user list that holds each matching entry as many times as the list does |
| `CommentDialog.PrunedMentions` | components/CommentDialog/commentDialog.jsx:80-85 | keeps exactly the mentioned ids for which a listed user with that id has `@first last` in the text, in their old order, without introducing duplicates |
| `CommentDialog.SpliceMention` | components/CommentDialog/commentDialog.jsx:94-97 | with a mention start inside the text, the text becomes `text[..start-1] + "@" + name + " " + text[start..]`; a start past the end appends `"@" + name + " "`; a null start reads as 0, so the last character is replaced by `"@" + name + " "` followed by the whole old text, and an empty text becomes `"@" + name + " "` |
| `CommentDialog.SelectedUserStaysMentioned` | components/CommentDialog/commentDialog.jsx:80-101 | after a listed user is picked, the new text writes out `@first last` of that user, so pruning against that text keeps their id |
| `CommentDialog.Dialog.constructor` | components/CommentDialog/commentDialog.jsx:16-29 | the dialog starts closed, with empty text, no users, no mention in progress and an empty mention list |
| `CommentDialog.Dialog.ReceiveUsers` | components/CommentDialog/commentDialog.jsx:35-37 | the fetched user list becomes the dialog's users |
| `CommentDialog.Dialog.Open` | components/CommentDialog/commentDialog.jsx:44 | opens the dialog |
| `CommentDialog.Dialog.Close` | components/CommentDialog/commentDialog.jsx:47-54 | closes the dialog, empties the text and the mention list, hides the dropdown; nothing else changes |
| `CommentDialog.Dialog.ChangeComment` | components/CommentDialog/commentDialog.jsx:57-88 | text ending in `@`: the mention starts at the text length, the dropdown shows all users; otherwise, while a mention is in progress, the dropdown holds the matching users and is shown exactly when non-empty; the text becomes the new value and the mention list is pruned against it |
| `CommentDialog.Dialog.SelectMention` | components/CommentDialog/commentDialog.jsx:92-110 | splices the picked name into the text, ends the mention, hides the dropdown, and appends the user's id only if it is absent, so the list stays duplicate-free and contains it |
| `CommentDialog.Dialog.Submit` | components/CommentDialog/commentDialog.jsx:113-145 | whitespace-only text: sets the error flag, sends nothing, leaves text, open state and mentions alone; otherwise closes, empties text and mentions, sends the text for the dialog's photo, and sends the captured mention list afterwards only when it was non-empty |

## Left out

- `WebServer.Server.PostComment`: a request without a `comment` field rejects the `async` handler's promise, which Express 4 ignores and which nothing in webServer.js handles; on Node 15 or later the default unhandled-rejection mode then ends the server process, losing every session held in the in-memory `express-session` store. The model answers with `NoReply` and keeps the store and the session as they were; the process exit and the lost sessions are not modelled.
- Database, HTTP and session plumbing. Queries, `save` and `create` become reads and assignments on the in-memory store. Every `catch` branch that answers 500 (or 400 after a failed `save`) stands for a database failure and is not modelled.
- Concurrent requests. Each handler runs as one atomic step, so the lost update between two comment appends on the same photo is not represented.
- Photo upload (`POST /photos/new`): it is file parsing, file writing and a clock.
- Logout: its reply races the asynchronous session destruction.
- `/`, `/test/:p1`, `/user/list` and `/user/:id`: status and projection endpoints with no logic of their own.
- The second `GET /user/details/:id` route (webServer.js:415-456) is identical to the first and shadowed by it, so it is modelled once.
- Likes, deletions and the mention endpoints are not in the server code, so they are not modelled.
- Request body fields are either absent or strings. Numbers, objects and other non-string values are not modelled.
- The comment handler takes the clock's time as a millisecond integer (`now`), not as the ISO string that the schema casts.
- `WebServer.Server.Register`: the login-name check (`User.findOne`, webServer.js:219) and the creation (`User.create`, webServer.js:230) are separate database steps, and nothing makes them atomic. Two overlapping registrations with the same `login_name` can both pass the check and both be created; `findOne` at webServer.js:75 then always finds the first, so the second user can never log in. Each call here is one atomic step, so `Valid()`'s unique login names, and the "if and only if" of `WebServer.Server.Login` that rests on them, hold only while registrations do not overlap.
- `WebServer.Server.Register`: these fields are not modelled: `location`, `description`, `occupation`, and any other body field the document receives. No handler here reads them.
- `WebServer.Server.Register`: an absent `login_name` is not modelled, because how the database driver treats an undefined query value is outside this model. The id the database assigns is a parameter, and the method requires it to be unused.
- `WebServer.PhotosOfUserResolvesAuthors`: when two stored users share an id, the contract does not say which one is served; it only says the result is one of them. `WebServer.UserMap` states that `Object.fromEntries` keeps the later one.
- `WebServer.CommenterIds`: the contract states only that every commenter id is collected, not that nothing else is. Extra ids could not change any served comment.
- Stored ids are compared as strings. Only the request id is cast to its stored form.
- `toLowerCase` is modelled for ASCII letters only. Non-ASCII case mappings are not modelled.
- `CommentDialog.Dialog.ChangeComment`, `CommentDialog.Dialog.SelectMention`, `CommentDialog.SpliceMention`: text lengths and `slice` positions are counted in characters, not in UTF-16 code units as JavaScript counts them. A character outside the Basic Multilingual Plane before the mention start therefore moves `mentionStart`, the mention text and the splice point by one position per such character relative to the browser.
- Comment dialog: these are not modelled:
  - the HTTP requests themselves (they are returned as values);
  - the outcome of the comment request. The mentions request is only sent once the comment request has succeeded; `Submit` returns it as though that request succeeds, and a failed comment request (which only sets `error`) is not modelled;
  - the success and error snackbars set by the request callbacks, and `handleSnackbarClose`;
  - the parent's refresh callback;
  - `render`.
  - The user-list request in `componentDidMount` is not modelled either; only the state update it makes is (`ReceiveUsers`).
