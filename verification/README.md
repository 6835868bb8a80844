# User request handlers as store transitions

This project models the decision logic of the user request handlers in
`backend/controllers/user.controller.js` of a Node/Express backend. Each
handler becomes a pure function from the user collection (an immutable map
from document id to a `User` record) and the request fields to a `Reply`. A
`Reply` carries the HTTP status, whether an `accessToken` cookie was set, and
the collection after the call.

Modules:

- `Fields` (`fields.dfy`): optional request fields and JavaScript truthiness. A
  string field counts as `Provided` when it is present and non-empty, which is
  exactly when `!x` is false.
- `UserStore` (`user_store.dfy`): the `User` record, the `Store` map, the
  `findOne({ email })` lookup and the unique-email predicate.
- `Favorites` (`favorites.dfy`): the favorites list used as an
  insertion-ordered set. `Add` is the `includes`/`push` pair and `Remove` is
  the `filter`.
- `UserController` (`user_controller.dfy`): the nine handlers `Signup`,
  `Login`, `UpdateUser`, `DeleteUser`, `DeleteOtherUser`, `Google`,
  `AddToFavorites`, `RemoveFromFavorites` and `ToggleAdminStatus`.
- `ControllerProperties` (`controller_properties.dfy`): lemmas that relate
  several calls, and a `Handle` dispatcher over every request kind. `Handle`
  is used to state invariants that hold for all handlers.

Outside collaborators become parameters:

- the document's `isPasswordCorrect` is a predicate `passwordMatches(stored, candidate)`;
- the fresh document id the database assigns is `newId`, required to be unused;
- the hashed random password of a federated sign-up is `generatedPassword`.

The issued token is reduced to the `token` flag.

`findOne({ email })` returns one matching document. The model leaves open which
one when several documents share an email. `UserStore.FindByEmailIsUnique`
shows that the choice is forced when emails are unique. The schema file
`backend/models/user.model.js` is not part of this model. Its defaults are
assumed to be:

- `isAdmin` and `isSuperAdmin` false;
- an empty favorites list;
- the schema's own default avatar, written `None`, for a plain sign-up.

## Model

| member | source | states |
|---|---|---|
| UserStore.FindByEmail | backend/controllers/user.controller.js:53-56 | the lookup finds nothing exactly when no document has the email; otherwise it finds a document that has it |
| UserStore.FindByEmailIsUnique | backend/controllers/user.controller.js:53 | when emails are unique, the lookup returns the one document with that email |
| Favorites.Add | backend/controllers/user.controller.js:238-241 | an id already in the list leaves it unchanged; an absent id is appended at the end; either way the list holds the old elements plus the id and nothing else, with the old list as a prefix |
| Favorites.Remove | backend/controllers/user.controller.js:258-260 | the tool id no longer occurs; any other id occurs afterwards exactly when it occurred before; the list never grows |
| Favorites.RemoveCounts | backend/controllers/user.controller.js:258-260 | removal sets the id's count to zero and keeps the count of every other id (multisets) |
| Favorites.AddIdempotent | backend/controllers/user.controller.js:238-241 | adding the same id twice gives the same list as adding it once |
| Favorites.AddKeepsNoDuplicates | backend/controllers/user.controller.js:238-241 | adding to a duplicate-free list never creates a duplicate |
| Favorites.RemoveAppend | backend/controllers/user.controller.js:258-260 | removal distributes over concatenation, so it keeps the order of the remaining ids |
| Favorites.RemoveSingleton | backend/controllers/user.controller.js:258-260 | on a one-element list, removal drops the element exactly when it equals the id |
| Favorites.RemoveAbsent | backend/controllers/user.controller.js:258-260 | removing an id that is not in the list leaves the list unchanged |
| Favorites.RemoveIdempotent | backend/controllers/user.controller.js:258-260 | removing twice gives the same list as removing once |
| Favorites.RemoveUndoesAdd | backend/controllers/user.controller.js:238-260 | adding an id that was absent and then removing it restores the original list |
| Favorites.RemoveKeepsNoDuplicates | backend/controllers/user.controller.js:258-260 | removal keeps a duplicate-free list duplicate-free |
| UserController.Signup | backend/controllers/user.controller.js:11-45 | 400 exactly when a field is missing or empty; otherwise 409 exactly when the email is taken; otherwise 201 with one new record holding the given fields; no cookie; the store is unchanged on every error |
| UserController.Login | backend/controllers/user.controller.js:47-74 | never changes the store; 400 when a field is missing, then 404 for an unknown email, then 401 when the password check fails; a token exactly on 200 |
| UserController.Patch | backend/controllers/user.controller.js:98-101 | each of full name, email, password and avatar is overwritten exactly when supplied non-empty; role flags and favorites are kept |
| UserController.UpdateUser | backend/controllers/user.controller.js:86-111 | 400 exactly when all four fields are absent, then 404 for a missing caller; on 200 only the caller's record changes, by the patch |
| UserController.DeleteUser | backend/controllers/user.controller.js:113-121 | 404 exactly when the caller's record is absent; otherwise exactly that id is removed and every other record is kept |
| UserController.DeleteOtherUser | backend/controllers/user.controller.js:122-141 | 404 for a missing caller or missing target id; 403 for a caller without the super-admin flag, checked before any deletion; 404 for an absent target; on 200 exactly the target is removed |
| UserController.Google | backend/controllers/user.controller.js:163-224 | 400 when email or name is missing; 200 with a token and an unchanged store for a known email, with no password check; otherwise 201 with a token and one new record holding the generated password and the given or default avatar |
| UserController.AddToFavorites | backend/controllers/user.controller.js:226-244 | 400 without a tool id, then 404 for a missing caller; on 200 only the caller's favorites change, by `Favorites.Add` |
| UserController.RemoveFromFavorites | backend/controllers/user.controller.js:246-264 | 400 without a tool id, then 404 for a missing caller; on 200 only the caller's favorites change, by `Favorites.Remove` |
| UserController.ToggleAdminStatus | backend/controllers/user.controller.js:277-289 | 404 exactly when the target is missing or absent; otherwise only the target's admin flag is negated; no privilege check on the caller |
| ControllerProperties.SignupTwiceConflicts | backend/controllers/user.controller.js:25-29 | after a successful sign-up, a second sign-up with the same email answers 409 and changes nothing |
| ControllerProperties.SignupKeepsUniqueEmails | backend/controllers/user.controller.js:25-37 | sign-up keeps emails unique |
| ControllerProperties.SignupThenLogin | backend/controllers/user.controller.js:33-73 | after a successful sign-up, login with the same email and password answers 200 with a token, provided the password check accepts the stored value |
| ControllerProperties.LoginSucceedsIff | backend/controllers/user.controller.js:48-73 | with unique emails, login succeeds exactly when some account has the email and its stored password passes the check |
| ControllerProperties.LoginSuccessHasAccount | backend/controllers/user.controller.js:53-73 | on every store, including ones with repeated emails, a 200 from login means some account has the email and its stored password passes the check |
| ControllerProperties.UpdateUserIdempotent | backend/controllers/user.controller.js:89-107 | applying the same update twice gives the same reply and store as applying it once |
| ControllerProperties.UpdateWithoutEmailKeepsUniqueEmails | backend/controllers/user.controller.js:98-101 | an update that supplies no email keeps emails unique |
| ControllerProperties.UpdateMayDuplicateEmail | backend/controllers/user.controller.js:99 | there is a store with unique emails and an update that answers 200 but gives two accounts the same email |
| ControllerProperties.DeleteUserTwice | backend/controllers/user.controller.js:114-118 | deleting one's own account a second time answers 404 and changes nothing |
| ControllerProperties.DeleteOtherUserNeedsSuperAdmin | backend/controllers/user.controller.js:126-132 | a caller that is absent or not a super admin never gets 200 and never changes the store, whatever the target |
| ControllerProperties.GoogleAfterSignupSkipsPassword | backend/controllers/user.controller.js:170-185 | after a sign-up, federated login with that email answers 200 with a token and changes nothing, whatever the password |
| ControllerProperties.GoogleTwice | backend/controllers/user.controller.js:170-202 | a second federated login with the same email answers 200 with a token and creates nothing |
| ControllerProperties.GoogleKeepsUniqueEmails | backend/controllers/user.controller.js:170-202 | federated sign-up keeps emails unique |
| ControllerProperties.AddToFavoritesTwice | backend/controllers/user.controller.js:238-243 | adding the same favorite twice gives the same reply and store as adding it once |
| ControllerProperties.RemoveFromFavoritesTwice | backend/controllers/user.controller.js:258-263 | removing the same favorite twice gives the same reply and store as removing it once |
| ControllerProperties.RemoveAbsentFavorite | backend/controllers/user.controller.js:258-263 | removing a favorite that is not there answers 200 and changes nothing |
| ControllerProperties.AddThenRemoveFavorite | backend/controllers/user.controller.js:238-261 | adding a new favorite and then removing it restores the store |
| ControllerProperties.FavoritesKeepNoDuplicates | backend/controllers/user.controller.js:238-261 | a duplicate-free favorites list stays duplicate-free under both handlers |
| ControllerProperties.ToggleAdminTwice | backend/controllers/user.controller.js:279-286 | toggling the admin flag twice restores the original store |
| ControllerProperties.ErrorsChangeNothing | backend/controllers/user.controller.js:11-289 | for every handler, an error status leaves the store unchanged, and a token is only set with 200 or 201 |
| ControllerProperties.NoRequestGrantsSuperAdmin | backend/controllers/user.controller.js:11-289 | no handler gives anyone the super-admin flag |
| ControllerProperties.OnlyToggleChangesAdmin | backend/controllers/user.controller.js:11-289 | every handler except the toggle keeps each admin flag; a new account starts without it |

## Left out

- `signout` only clears the cookie and answers 200. Cookie handling is HTTP plumbing, and it has no store effect.
- `test`, `getUserProfile`, `getFavorites` and `getAllUsers` are read-only projections and joins. `getFavorites` uses a `populate` join over the tool collection, which is not modelled.
- Response bodies and the `ApiResponse`/`ApiError` envelopes are not modelled. This includes the password hash that sign-up and login return, and the envelope status 200 that sign-up sends with HTTP 201.
- Status 500 paths are not modelled: a failed `save`, an ObjectId cast error for a malformed id or tool id, and a request without an authenticated `req.user`. Every id string is looked up as it is.
- Tool ids are modelled in canonical form. The program stores the ObjectId cast of `toolId` (line 239), but the filter at line 259 compares `id.toString()` with the raw request string. A castable non-canonical id, such as upper-case hex, is therefore stored lower-case and then never matched by the filter. In the model, `RemoveFromFavorites` always matches an id that `AddToFavorites` stored.
- Body fields are modelled as optional strings only. Numbers or objects in the JSON body are not modelled.
- Password hashing, both bcrypt and the pre-save hook in the schema, is not modelled: `password` holds the value the handler hands to the database. The `Math.random` password is the opaque parameter `generatedPassword`.
- The token value, cookie options and the `secure` flag difference between login paths are not modelled. The `token` flag only records that a cookie was set.
- Concurrency is not modelled: each handler is atomic, so the read-modify-write race on favorites does not arise.
- Email uniqueness is not an invariant of the model. The handler makes no uniqueness check on a new email (line 99 of the controller). If the schema, which is not part of this model, declares a unique index, such a save fails with 500, and that is not modelled. `ControllerProperties.UpdateMayDuplicateEmail` describes the handler's own logic.
- Emails are compared exactly as written. Any normalisation the schema may apply to `email`, such as lower-casing or trimming, is not modelled.
- `backend/models/comment.model.js` declares a schema with no logic. No handler here touches comments.
