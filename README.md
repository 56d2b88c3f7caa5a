# Notes app: identity and ownership, and the client state machines

This project models the core of a MERN notes application in Dafny and proves
properties of the model. It covers the Express/Sequelize backend and the two
React clients.

**Backend**

- The note handlers, which read and write only the caller's rows. Each one
  filters on the note id and on the authenticated user's id. The older
  find-then-mutate variant is modelled beside them. On fault-free runs the
  two are proved to agree, except when the update body lacks a field, a
  case where their answers are proved to differ.
- The user table: a unique, e-mail-shaped address, NOT NULL columns, the
  bcrypt hooks on create and update, `isValidPassword`, and the cascade to
  notes.
- Signup, login and logout, including the equal 401 for an unknown address
  and a wrong password.
- The `auth` gate: the header becomes one of three 401 answers, or success
  with `req.user` and `req.token` set.
- The last-resort error handler's ordered classification by error name.

**Clients**

- Both `Notes` components as classes whose fields are the React state.
- Both `services/api.js` files: `localStorage` as a key/value map, the
  bearer-header request interceptor, login/logout/getCurrentUser, and the
  401 response interceptor.

**How the model is built**

- Every external library is an oracle value passed in:
  - bcrypt: `Crypto.Hasher`;
  - `jsonwebtoken`: `Crypto.Jwt`;
  - `Date.now()` and `toLocaleString()`;
  - the settled outcome of each axios call: `Browser.HttpOutcome`;
  - the store call that throws: `Database.Faults`.
- What bcrypt and RFC 7519 (its `exp` claim, section 4.1.4) guarantee is
  stated as `SoundHasher` and `SoundJwt`. Only the lemmas that rely on those
  guarantees require them.
- The store is a class `Database.Db` holding two maps from primary key to
  row and the two auto-increment counters. Its invariant `Valid()` is the
  schema:
  - keys agree with ids and stay below the counters;
  - every note references an existing user;
  - addresses are e-mail-shaped and unique.
- Request bodies are maps from field name to string. A missing field is
  JavaScript's `undefined`.

Where the code and its documentation differ, the model follows the code:
- The gate answers three different 401 messages, not one.
- The current note and auth handlers put the internal `error.message` into
  500 bodies. Only the legacy note handlers keep it out.
- `name` is only NOT NULL: an empty name is accepted.

## Model

Some rows are definitions rather than proved properties: the store
lookups `Database.Db.FindByPk`, `Database.Db.FindOne` and
`Database.Db.FindUserByPk`, and the JavaScript operators `Common.Field`,
`Common.OrElse`, `Browser.Storage.GetItem`, `Browser.WithBearer`,
`UserModel.Public`, `ApiNotes.ErrorText`, `ErrorHandler.StatusOr500` and
`ClientApi.CurrentUserOf`. Their contracts spell out what the library call or
operator does, and the operation proofs build on them.

| member | source | states |
|---|---|---|
| Common.TrimEmptyIffBlank | frontend/src/components/Notes.jsx:15 | `s.trim()` is empty exactly when every character of `s` is JavaScript white space, in both directions |
| Common.ReplaceFirst | backend/src/middleware/auth.js:7 | `replace` with a string pattern rewrites only its first occurrence and leaves a string without it unchanged |
| Common.ReplaceFirstOfPrefix | backend/src/middleware/auth.js:7 | deleting the first `"Bearer "` from `"Bearer " + t` gives back `t` |
| Common.Field | backend/src/controllers/noteController.js:63 | a destructured body field is present exactly when the body has the key, with its value; otherwise `undefined` |
| Common.Trim | frontend/src/components/Notes.jsx:15 | `trim` returns a part of the string, no longer than it, that neither starts nor ends with JavaScript white space |
| Common.OrElse | frontend/notes/src/components/Notes.jsx:26 | `a \|\| b` on an optional string: `a` when it is present and non-empty, `b` otherwise |
| Crypto.IssuedTokenLifetime | backend/src/controllers/authController.js:21-25 | the assumed `jsonwebtoken` guarantee for `expiresIn: '24h'`, in the form the controllers use: a token signed for `u` at `iat` verifies strictly before `iat` + 24 h and names `u`, and is rejected from then on |
| NoteModel.NullColumns | backend/src/models/Note.js:11-18 | the NOT NULL check passes exactly when title and content are both present, and names each missing column |
| UserModel.Public | backend/src/controllers/authController.js:30-34 | the public projection keeps `id`, `name` and `email`; its type has no password field |
| UserModel.IsEmailShape | backend/src/models/User.js:16-23 | the e-mail check accepts exactly the strings with a non-empty local part free of `@` and spaces, one `@`, and a domain free of `@` and spaces that contains a dot and neither starts nor ends with one |
| UserModel.Violations | backend/src/models/User.js:12-27 | no violation exactly when name, email and password are present and the address is e-mail-shaped; name and password are flagged exactly when missing |
| UserModel.HashOnCreate | backend/src/models/User.js:32-37 | a non-empty plaintext is stored as its hash under the fresh salt; an empty one is left as it is |
| UserModel.StoredIsPlaintextOnlyWhenEmpty | backend/src/models/User.js:32-37 | under a sound hasher, the stored value equals the plaintext exactly when the plaintext is empty |
| UserModel.HashOnUpdate | backend/src/models/User.js:38-43 | only the password column can differ from the row being written; it is re-hashed exactly when it changed |
| UserModel.IsValidPassword | backend/src/models/User.js:47-53 | under a sound hasher, a plaintext whose hash under some salt is the stored password is accepted; a bcrypt exception is passed on, not read as a mismatch |
| UserModel.UpdatedPasswordIsValid | backend/src/models/User.js:38-53 | after an update that changed the password, `isValidPassword` accepts the new plaintext; an update that did not change it keeps the stored hash |
| UserModel.CreatedPasswordIsValid | backend/src/models/User.js:47-53 | a row created with a non-empty password accepts that password |
| Database.InsertNewestFirst | backend/src/controllers/noteController.js:26-29 | inserting into a list sorted by `createdAt` descending keeps it sorted, and the result is the old list plus the new row as a multiset |
| Database.Patched | backend/src/controllers/noteController.js:64-72 | an UPDATE of title and content changes exactly the columns whose new value is defined; id, owner and creation time never change |
| Database.NotesNotOwnedBy | backend/src/models/User.js:56-61 | the cascade keeps exactly the notes of other users, unchanged |
| Database.Db.constructor | backend/src/models/Note.js:6-10 | an empty store satisfies the schema, and both counters start at 1 |
| Database.Db.FindByPk | backend/src/controllers/noteController.js:79 | the row under that primary key, if any |
| Database.Db.FindOne | backend/src/controllers/noteController.js:41-46 | a row is found exactly when it exists and belongs to the owner |
| Database.Db.FindAll | backend/src/controllers/noteController.js:26-29 | every row of the owner exactly once and no other row; newest first when ordered (a loop over the key set with its invariants) |
| Database.Db.FindUserByPk | backend/src/middleware/auth.js:15 | the user under that id, if any |
| Database.Db.FindUserByEmail | backend/src/controllers/authController.js:10 | a user is found exactly when some user has the address, and it is that user |
| Database.Db.CreateNote | backend/src/models/Note.js:5-26 | insert exactly when both columns are present and the owner exists; the row gets the next id, which no row had, and no other row changes |
| Database.Db.UpdateWhere | backend/src/controllers/noteController.js:64-72 | one matched row when (id, owner) matches and at least one field is defined, and only that row is patched; with no match, or with both fields undefined (no statement is sent), the count is 0 and nothing changes |
| Database.Db.DestroyWhere | backend/src/controllers/noteController.js:93-98 | removes exactly the (id, owner) row when it matches, and nothing otherwise |
| Database.Db.Save | backend/controllers/noteController.js:38-40 | writing an instance succeeds exactly when both columns are defined, and then only that row changes; otherwise NOT NULL fails and nothing changes |
| Database.Db.Destroy | backend/controllers/noteController.js:56 | removes that instance's row and no other |
| Database.Db.CreateUser | backend/src/models/User.js:6-37 | insert exactly when validation passes and the address is new; the row has the next id and the hashed password; on failure the table is unchanged and the error names the cause |
| Database.Db.DestroyUser | backend/src/models/User.js:56-61 | removing a user removes exactly that user's notes and keeps the schema |
| NoteController.CreateNote | backend/src/controllers/noteController.js:4-22 | 201 exactly when no fault, both fields present and the caller exists; the owner is always the caller; only the new row is added; otherwise 500 and no change |
| NoteController.GetNotes | backend/src/controllers/noteController.js:24-37 | exactly the caller's notes, each once, newest first, all owned by the caller; a fault gives 500 |
| NoteController.GetNote | backend/src/controllers/noteController.js:39-59 | 404 exactly when no row matches both the id and the caller; found rows are the caller's |
| NoteController.ForeignNoteLooksMissing | backend/src/controllers/noteController.js:39-59 | another user's note and a missing note get the same response, a 404 or a 500 |
| NoteController.UpdateNote | backend/src/controllers/noteController.js:61-89 | 404 with nothing changed when (id, owner) matches no row or the body has neither field; otherwise only that row is patched and the re-read row is returned with the body's fields; 500 exactly on a fault of the UPDATE or the re-read |
| NoteController.DeleteNote | backend/src/controllers/noteController.js:91-111 | removes only the (id, owner) row; 404 and no change when there is none; 500 exactly on a fault |
| NoteController.DeleteTwice | backend/src/controllers/noteController.js:91-111 | a second delete of the same id is answered 404 |
| LegacyNoteController.CreateNote | backend/controllers/noteController.js:3-13 | the owner is the caller's id, never a body field; 500 "Failed to create note" and no change otherwise |
| LegacyNoteController.GetNotes | backend/controllers/noteController.js:16-26 | exactly the caller's notes, in no promised order; 500 "Failed to get notes" on a fault |
| LegacyNoteController.UpdateNote | backend/controllers/noteController.js:28-45 | 404 "Note Not Found" when no row matches; saves both fields when both are present; 500 with a fixed text and no change otherwise |
| LegacyNoteController.DeleteNote | backend/controllers/noteController.js:48-62 | 404 "Note not found" when no row matches; otherwise exactly that row is removed |
| LegacyNoteController.CreateVariantsAgree | backend/controllers/noteController.js:3-13 | from equal stores, both create handlers leave equal tables and answer the same status and row |
| LegacyNoteController.UpdateVariantsAgree | backend/controllers/noteController.js:28-45 | on the caller's note with both fields, both update handlers write the same row and leave equal tables |
| LegacyNoteController.UpdateVariantsAgreeOnMissing | backend/controllers/noteController.js:34-36 | when the caller owns no such note, both answer 404 and the tables stay equal |
| LegacyNoteController.UpdateVariantsDiverge | backend/controllers/noteController.js:38-43 | with exactly one field in the body, the current handler patches that field and answers 200; the legacy one answers 500 and writes nothing |
| LegacyNoteController.UpdateVariantsDivergeOnEmpty | backend/controllers/noteController.js:38-43 | with neither field in the body, the current handler answers 404 and the legacy one 500; neither writes anything |
| LegacyNoteController.DeleteVariantsAgree | backend/controllers/noteController.js:48-62 | both delete handlers leave equal tables and the same status, and their 404 text is the same "Note not found" |
| AuthController.Signup | backend/src/controllers/authController.js:5-40 | 400 exactly when the address is taken; 201 exactly when it is new and validation passes; then one row is added with the hashed password and the token is for the new id; otherwise nothing is stored |
| AuthController.Login | backend/src/controllers/authController.js:42-81 | 401 exactly for an unknown address or a non-matching password; 500 exactly on a fault, a missing field or bcrypt throwing; success returns the public user and a token for its id |
| AuthController.UnknownEmailLooksLikeWrongPassword | backend/src/controllers/authController.js:47-58 | an unknown address and a wrong password give the very same 401 |
| AuthController.LoginTokenLifetime | backend/src/controllers/authController.js:61-65 | a login token verifies exactly within 24 hours of the login, to the logged-in user |
| AuthController.Logout | backend/src/controllers/authController.js:83-91 | 200 "Logged out successfully" exactly when a user is attached to the request; without one, reading its id throws and the answer is 500 "Error logging out"; no store access |
| AuthController.LogoutBehindGate | backend/src/controllers/authController.js:83-91 | a request the auth gate lets through carries the table's row under its own id, and logs out with 200 |
| AuthController.SignupThenLogin | backend/src/controllers/authController.js:5-81 | after a successful signup, login with the same body succeeds for the new user, whose stored password is not the plaintext, and its token names that user |
| AuthGate.ExtractToken | backend/src/middleware/auth.js:7 | a token exactly when there is a header; a header without `"Bearer "` is taken whole |
| AuthGate.ExtractBearer | backend/src/middleware/auth.js:7 | `"Bearer t"` yields `t` |
| AuthGate.Gate | backend/src/middleware/auth.js:5-30 | "Authentication required" exactly for a missing or empty token; success exactly for a verified token naming an existing user, with that user and token; "Invalid token" exactly for a verified token naming nobody; every other case "Please authenticate" |
| AuthGate.IssuedTokenAuthenticates | backend/src/middleware/auth.js:14-25 | a token issued for an existing user and sent within 24 hours passes, with that user |
| AuthGate.ExpiredTokenRejected | backend/src/middleware/auth.js:26-29 | from the 24th hour on, the same token gets "Please authenticate" |
| AuthGate.Auth | backend/src/middleware/auth.js:5-30 | on success `req.user` and `req.token` are set and `next` runs once; otherwise 401 with the gate's message and `next` does not run; only the request changes |
| ErrorHandler.StatusOr500 | backend/src/middleware/errorHandler.js:36 | an absent or zero status becomes 500 |
| ErrorHandler.Handle | backend/src/middleware/errorHandler.js:15-38 | the three named classes in order (400 with the list, 409 with the first path, 401), then the error's status or 500 with its message or "Internal Server Error"; a unique-constraint error without entries makes the handler throw |
| ErrorHandler.NamedClassesIgnoreStatusAndMessage | backend/src/middleware/errorHandler.js:15-33 | for the three named classes, the error's own status and message do not change the answer |
| ErrorHandler.DefaultMessageNeverEmpty | backend/src/middleware/errorHandler.js:36-38 | the default branch always responds, with a non-empty message |
| ErrorHandler.DuplicateEmailIs409 | backend/src/middleware/errorHandler.js:22-27 | a duplicate address is answered 409 naming `email` |
| ErrorHandler.StoreValidationFallsToDefault | backend/src/middleware/errorHandler.js:15-20 | the store's validation errors are named `SequelizeValidationError`, so they miss the 400 branch and get 500 with their message |
| JsonUser.Stringify | frontend/src/services/api.js:34 | the stored text is a JSON object that opens with the `id` member and closes with `}` |
| JsonUser.ParseUser | frontend/src/services/api.js:48 | only a text opening with the `id` member is read as a user; with `JsonUser.ParseStringify` it inverts `Stringify` |
| JsonUser.ParseStringify | frontend/src/services/api.js:34-48 | parsing the stored `JSON.stringify` of a user gives back that user |
| JsonUser.UndefinedIsUnreadable | frontend/src/services/api.js:34-48 | the text `undefined`, stored for a missing user, cannot be parsed |
| Browser.Storage.GetItem | frontend/src/services/api.js:14 | `getItem` returns the stored text exactly for a stored key |
| Browser.Storage.SetItem | frontend/src/services/api.js:33-34 | `setItem` maps the key to the value and changes nothing else |
| Browser.Storage.RemoveItem | frontend/src/services/api.js:42-43 | `removeItem` drops the key and changes nothing else |
| Browser.WithBearer | frontend/src/services/api.js:12-18 | `Authorization: Bearer <token>` is added exactly when a truthy token is stored; otherwise the headers are unchanged |
| ClientApi.InterceptRequest | frontend/src/services/api.js:12-23 | the request headers become the bearer headers for the stored token |
| ClientApi.BearerRoundTrip | frontend/src/services/api.js:16 | the header the client writes gives back the stored token through the gate's extraction |
| ClientApi.IssuedTokenSentIsAccepted | frontend/src/services/api.js:12-18 | a server-issued token, stored and sent within 24 hours, passes the gate as its user |
| ClientApi.StoredUser | frontend/src/services/api.js:34 | the text stored for the response's user parses back to that user; for a missing user it is `undefined`, which does not parse |
| ClientApi.LoginItems | frontend/src/services/api.js:32-35 | on a response with a truthy token, the token and the stored user text are set; every other key keeps its presence and value; without a token nothing changes |
| ClientApi.LogoutItems | frontend/src/services/api.js:41-44 | neither `token` nor `user` is left, and every other key keeps its presence and value |
| ClientApi.CurrentUserOf | frontend/src/services/api.js:46-49 | no user for an absent or empty entry; otherwise the parsed user, or unreadable when parsing fails |
| ClientApi.LoginThenCurrentUser | frontend/src/services/api.js:30-49 | after a login that carried a token and a user, the current user is that user and the stored token is the one received |
| ClientApi.LoginWithoutTokenStoresNothing | frontend/src/services/api.js:32-35 | a login response without a token leaves storage unchanged |
| ClientApi.LogoutClearsSession | frontend/src/services/api.js:38-49 | after logout there is no current user and no token |
| ClientApi.Signup | frontend/src/services/api.js:26-29 | the outcome is passed on and storage is not written |
| ClientApi.Login | frontend/src/services/api.js:30-37 | token and stringified user are stored exactly on a response with a truthy token; the outcome is passed on |
| ClientApi.Logout | frontend/src/services/api.js:38-45 | both keys are removed however the request ends, and the outcome is passed on |
| ClientApi.GetCurrentUser | frontend/src/services/api.js:46-49 | no user when the entry is absent or empty; unreadable exactly when the stored text does not parse; otherwise the parsed user |
| ClientApi.NoteCall | frontend/src/services/api.js:52-73 | each note call carries the stored token and hands back the response data or the rejection unchanged |
| NotesApi.InterceptRequest | frontend/notes/src/services/api.js:12-23 | the same bearer headers as the main client |
| NotesApi.ItemsAfter | frontend/notes/src/services/api.js:28-30 | the items after the interceptor are the items before, minus `token` exactly on a 401, with every value unchanged |
| NotesApi.HrefAfter | frontend/notes/src/services/api.js:28-31 | the location becomes `/login` on a 401 and stays unchanged otherwise |
| NotesApi.UnauthorizedKeepsUser | frontend/notes/src/services/api.js:27-34 | a 401 removes only the token and keeps the stored user; any other outcome leaves storage unchanged |
| NotesApi.InterceptResponse | frontend/notes/src/services/api.js:25-35 | the outcome is passed on unchanged; exactly on a 401 the token is removed and the page goes to `/login` |
| NoteList.WithoutKeepsOthers | frontend/src/components/Notes.jsx:35 | the filter keeps exactly the entries with another id and never lengthens the list |
| NoteList.WithoutAppend | frontend/src/components/Notes.jsx:35 | the filter keeps the survivors in order: it distributes over concatenation |
| NoteList.WithoutAbsent | frontend/src/components/Notes.jsx:35 | removing an id that no entry has leaves the list as it is |
| NoteList.AddThenDelete | frontend/src/components/Notes.jsx:22-35 | prepending a note with a fresh id and then deleting it gives back the old list |
| NoteList.Deselected | frontend/src/components/Notes.jsx:36-38 | the selection is cleared exactly when it is the deleted note; otherwise it stays |
| NoteList.Toggled | frontend/src/components/Notes.jsx:44 | the menu closes exactly when that id was open; otherwise that id opens |
| NoteList.ToggleTwice | frontend/notes/src/components/Notes.jsx:79-82 | toggling twice restores a closed menu or the same open menu, and closes another open menu |
| LocalNotes.Notes.constructor | frontend/src/components/Notes.jsx:7-12 | the initial state: no notes, nothing selected, no menu, modal closed, fields empty |
| LocalNotes.Notes.HandleAddNote | frontend/src/components/Notes.jsx:14-27 | no change for a blank title; otherwise the new note goes first, the old notes follow in order, the modal closes and the fields clear |
| LocalNotes.Notes.HandleNoteClick | frontend/src/components/Notes.jsx:29-32 | selects the note and closes the menu, and nothing else changes |
| LocalNotes.Notes.HandleDeleteNote | frontend/src/components/Notes.jsx:34-40 | filters that id out, clears the selection only if it was that note, and closes the menu |
| LocalNotes.Notes.ToggleMenu | frontend/src/components/Notes.jsx:42-45 | the open menu becomes the toggled one, and nothing else changes |
| LocalNotes.Notes.HandleLogout | frontend/src/components/Notes.jsx:47-50 | calls `onLogout` once and navigates to `/login` |
| LocalNotes.AddThenDeleteRestores | frontend/src/components/Notes.jsx:14-40 | adding a note with a fresh id and then deleting it restores the list and selection, with menu and modal closed |
| ApiNotes.ErrorText | frontend/notes/src/components/Notes.jsx:26 | the server's message when present, the handler's fallback otherwise |
| ApiNotes.Created | frontend/notes/src/components/Notes.jsx:35-45 | success prepends the server's note, closes the modal and clears the fields, keeping every other field; failure sets only the error |
| ApiNotes.Notes.constructor | frontend/notes/src/components/Notes.jsx:8-15 | the first render: no notes, loading, no error |
| ApiNotes.Notes.FetchNotes | frontend/notes/src/components/Notes.jsx:21-30 | the list becomes the response, or the error is set with its fallback; loading ends either way |
| ApiNotes.Notes.HandleAddNote | frontend/notes/src/components/Notes.jsx:32-47 | no request and no change for a blank title; otherwise the state after the create outcome |
| ApiNotes.Notes.CreateRequest | frontend/notes/src/components/Notes.jsx:34-45 | the create request's effect on state, storage and location |
| ApiNotes.Notes.HandleNoteClick | frontend/notes/src/components/Notes.jsx:49-52 | selects the note and closes the menu |
| ApiNotes.Notes.HandleDeleteNote | frontend/notes/src/components/Notes.jsx:54-65 | the note leaves the list only after the server call succeeds; on failure list, selection and menu stay and the error is set |
| ApiNotes.Notes.HandleLogout | frontend/notes/src/components/Notes.jsx:67-77 | both keys go and the page leaves only after the call succeeds; on failure the error is set and the user entry stays |
| ApiNotes.Notes.ToggleMenu | frontend/notes/src/components/Notes.jsx:79-82 | the open menu becomes the toggled one |

## Left out

- Logging: the `dbLogger`/`authLogger`/`logger` calls and the Note hooks write log lines only and have no counterpart.
- Concurrency: the race between signup's address check and its insert is not modelled, because every operation runs sequentially. The unique index is the invariant `EmailsUnique`.
- Timestamps: `updatedAt` is not modelled. `createdAt` and every clock value are parameters.
- Database.Db.UpdateWhere: returns the number of rows matched. MySQL's affected-row count for an update that writes the same values is not modelled.
- Database.Db.CreateUser: e-mail uniqueness is checked byte for byte. The database collation's case-insensitive comparison is not modelled.
- Database.Db.CreateNote: ids are the next counter value. Gaps that failed inserts leave in a real auto-increment counter are not modelled.
- UserModel.IsEmail: the `isEmail` validator is simplified to `local@domain.tld`: no spaces, one `@` after a non-empty local part, and a domain with a dot that neither starts nor ends with one. validator.js accepts and rejects more shapes than this.
- JsonUser.ParseUser: reads only the compact `{"id":…,"name":"…","email":"…"}` text that `JSON.stringify` writes. Any other text counts as unreadable, even text `JSON.parse` would accept.
- The text of Sequelize's error messages is a parameter (`Faults`, `FromStore`). The exact wording is not modelled.
- `process.env.JWT_SECRET` is the one secret inside the `Jwt` oracle. A missing secret, which makes `jsonwebtoken` throw, is not modelled.
- Token cryptography: signing and verification are the `sign`/`verify` oracles. HMAC and the token's encoding are left out.
- bcrypt's salt generation (`genSalt(10)`): the salt is a parameter.
- Route parameters: `req.params.id` is modelled as a natural number. String ids that do not parse as numbers are not modelled.
- Node's validation of status codes is not modelled: `ErrorHandler.Handle` answers whatever non-zero status the error carries.
- Routing: no route file is part of this model. The handlers take the caller from the auth gate, assuming the routes mount the gate in front of them. `AuthController.LogoutBehindGate` states the one case where the handler itself reads a possibly unset `req.user`.
- Request bodies: only string-valued body fields are modelled. A JSON `null`, a number or an object in `title`, `content`, `name`, `email` or `password` cannot be expressed. In the source, such values fail the NOT NULL check or are coerced by Sequelize.
- Column widths: on MySQL (backend/src/config/database.js:10), `title`, `name`, `email` and `password` are `DataTypes.STRING`, which is VARCHAR(255), and `content` is TEXT, at most 65,535 bytes (backend/src/models/Note.js:11-18, backend/src/models/User.js:12-27). Under MySQL's strict mode an over-long value makes the INSERT or UPDATE fail, so the handler answers 500. No `sql_mode` is set in the repository, so whether that happens depends on the server. The model has no width limit. `Database.Db.CreateNote`, `Database.Db.CreateUser`, `Database.Db.UpdateWhere` and `Database.Db.Save` accept values of any length. That failure can be reached only as a `Faults` failure. This affects the iff contracts of `NoteController.CreateNote`, `NoteController.UpdateNote`, `LegacyNoteController.UpdateNote` and `AuthController.Signup`: with `NoFault`, they answer success where a strict server answers 500.
- Ids: the `id` columns are 32-bit INTEGER with auto-increment, but the model's ids are unbounded naturals. Overflow of the counter is not modelled.
- Characters: Dafny's `char` is a Unicode scalar value, whereas JavaScript strings are UTF-16 code units. Lone surrogates therefore cannot occur in `JsonUser.Escape` or `JsonUser.ParseUser`, and a `\u` escape of a surrogate half is refused.
- Database.Db.FindUserByEmail: compares addresses byte for byte, like `CreateUser`. The database collation's case-insensitive lookup is not modelled.
- Database.Db.UpdateWhere: the empty-update case follows Sequelize's `Model.update`: undefined values are dropped, and when nothing is left it answers 0 without a query. That library code is not part of this model.
- Caller id in the legacy controller: it reads `req.user.userId`, whereas the gate attaches the user row, whose key is `id`. The legacy model takes the caller's id as a parameter and so stands for a request where that claim is set. With the gate as it is, the value would be `undefined`.
- React wiring: `onLogout` and `navigate` are modelled as a call counter and the last route. Rendering, `useEffect` and `event.stopPropagation` are left out. In both components the "Delete Note" button sits inside the row whose click handler is `handleNoteClick(note)` (frontend/src/components/Notes.jsx:110,124 and frontend/notes/src/components/Notes.jsx:155,169), and nothing stops the click from propagating. A delete in the rendered page therefore also selects the deleted note. `NoteList.Deselected` and both `HandleDeleteNote` members describe the delete handler alone.
- ApiNotes.Notes.HandleDeleteNote and ApiNotes.Notes.CreateRequest (and, in the same way, `FetchNotes` and `HandleLogout`): each request settles as one step against the state current at settlement. The source computes the new list and selection from the values captured in the render where the click happened (frontend/notes/src/components/Notes.jsx:39 and 57-59). The two agree only when nothing else changes that state between the click and the settlement. Example: deleting A and then B while the first request is pending ends with `[A]` in the source, because the second closure still holds `[A, B]`; the model ends with `[]`.
- In frontend/notes/src/services/api.js, `authService` and `notesService` are single axios calls. They are modelled as the outcome they settle with plus the two interceptors.
- `Date.now()` note ids can collide. `AddThenDeleteRestores` requires a fresh id; the handlers themselves accept any id.
