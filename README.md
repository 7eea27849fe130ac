# Friend ledger, chat store and account logic — a Dafny model

The backend of a developer-matching social app keeps its data in a document
database. Users carry a professional title and a list of users they have
rejected. Friend requests live in a ledger of records, each with a
recipient, a sender and a status (pending or accepted). Chats are records
with a sender, a receiver, a message and a timestamp. One-time codes are
records with a phone number, a code and an expiry.

The HTTP handlers and the socket relay each do one step over that store:
read, filter, then mutate. This project models that store in memory
(`Store.Database`: sequences of users, friend requests, chats and codes, in
insertion order) and every handler of the core:

- **The relationship ledger** (`UserController`):
  - suggestions;
  - sending, accepting and dismissing requests;
  - the incoming-request list;
  - the friends list, which is deduplicated structurally;
  - per-title friend counts, kept in a module-level accumulator that is
    never reset (`FriendCounter`).
- **The chat store** (`ChatController`): the history between two users,
  sorted by timestamp; deleting or editing the first record that matches an
  exact (sender, receiver, message) triple.
- **The socket relay** (`Server.Relay`):
  - rooms, as a map from room key to a set of sockets;
  - `chatMessage`, which stores a chat and then emits to two rooms whose
    keys concatenate the two ids in opposite orders;
  - emissions, kept as a log with the sockets each one reached.
- **Account logic** (`AuthController`, `UserModel`, `OtpModel`):
  - login and the `protect`/`isLoggedIn` guard chains;
  - `restrictTo`;
  - OTP issue and verify;
  - the two pre-save hooks, `changedPasswordAfter`;
  - the reset-token flow;
  - soft deletion behind the `active` find filter.

Lookups follow the store's order, so `findOne` is the first match.
`findById` / `findOne` on users skip inactive users, because of the
`pre(/^find/)` filter. A request-body field that is missing is written as
the empty string, which is falsy just as `undefined` is. Times are integer
milliseconds. JWT signing and verification, bcrypt, SHA-256, the random
generators, the clock and the outcome of sending an e-mail are parameters.
Handlers that change state are methods on `Database` (or on `FriendCounter`
/ `Relay`). Each such method is specified by a pure function of the old
state, and the properties are proved about those functions.

Behaviours kept exactly as the code has them:
- **Send:** the duplicate check looks only at the same direction.
- **Dismiss:** `rejectedUsers.push` appends duplicates.
- **Incoming list:** it does not look at the status.
- **Friends list:** the caller's own entry uses different keys from friend
  entries, so it is never merged with one.
- **Friend counts:** the count sets persist across calls, and a title that
  is not a bucket key makes that callback throw (the other callbacks still
  add).
- **Reset token:** it lives 60,000,000 ms. When its e-mail fails, the
  handler clears only the expiry and keeps the digest.
- **OTP codes:** they lie in [100000, 999998].
- **`verifyOTP`:** it still accepts at the expiry instant.
- **`resetPassword`:** it demands an expiry strictly after now.
- **`protect` / `isLoggedIn`:** they check, in order, the token, its
  verification, that the user still exists, then the password-change time.

## Model

| member | source | states |
|---|---|---|
| Common.Dedupe | controllers/userController.js:346-348 | `Array.from(new Set(...))`: the same elements as the input, no duplicates, never longer, and in the order of their first occurrences in the input |
| FriendRequestModel.StatusName | models/friendRequest.model.js:14-17 | a status is stored as "accepted" or "pending" |
| FriendRequestModel.ParseStatus | models/friendRequest.model.js:14-17 | the enum accepts a string iff it is one of the two values, and it reads back as itself |
| FriendRequestModel.NewRequest | models/friendRequest.model.js:3-19 | a new record has the given recipient and sender, the default status pending, and its creation time |
| OtpModel.CreateOtp | models/otp.model.js:3-20 | creation succeeds iff phone and code are present; the record then has all required fields, the given values and no user link |
| UserModel.IndexById | models/user.model.js:229-232 | the position of an active user with that id, with no active user of that id before it; none iff no active user has it |
| UserModel.FindById | models/user.model.js:229-232 | a found user has the id, is active and is in the store; nothing is found iff no active user has the id |
| UserModel.FindByEmail | models/user.model.js:229-232 | a found user has the email and is active; nothing is found iff no active user has it |
| UserModel.SoftDelete | models/user.model.js:229-232 | marking a user inactive keeps the store's size |
| UserModel.SoftDeletedNeverResolves | models/user.model.js:229-232 | after a soft delete that id never resolves again, and every other id resolves exactly as before |
| UserModel.ChangedPasswordAfter | models/user.model.js:197-208 | a token is refused only when a change time is set; for a change at time ms ≥ 0, a token of second t is refused iff (t+1)·1000 ≤ ms (truncated seconds against milliseconds) |
| UserModel.Utf16Length | models/user.model.js:26 | the length `minlength` measures, in UTF-16 code units: at least the number of characters and at most twice it |
| UserModel.Utf16LengthCountsSurrogates | models/user.model.js:26 | four characters outside the Basic Multilingual Plane measure 8, so they meet the minimum |
| UserModel.PasswordFieldsValid | models/user.model.js:23-41 | a record passes the save validators (a password of at least 8 UTF-16 code units, a confirmation equal to it) only with a confirmation present and non-empty |
| UserModel.HashHook | models/user.model.js:163-180 | the first hook changes nothing but password and passwordConfirm, and nothing at all when the password path is not modified |
| UserModel.HashHookOutcome | models/user.model.js:163-180 | the first hook does nothing when rejectedUsers is modified; otherwise a modified password is hashed and at most an empty confirmation is kept |
| UserModel.ValidatedConfirmNotStored | models/user.model.js:163-180 | a confirmation that passed validation is dropped whenever the password is hashed |
| UserModel.ChangedAtHook | models/user.model.js:182-188 | the second hook changes nothing but passwordChangedAt, and sets it to now−1000 exactly for a modified password of a document that is not new |
| UserModel.ChangedAtHookRevokes | models/user.model.js:182-188 | after the second hook stamps now−1000, a token of second t is refused iff (t+1)·1000 ≤ now−1000 |
| UserModel.UserDocument.New | models/user.model.js:116-160 | a new document has role "user", title "Other" unless one is given, the default image, no rejected users, is active, and has no change or reset fields |
| UserModel.UserDocument.Load | models/user.model.js:229-232 | a loaded document holds the stored record, is not new and has no modified paths |
| UserModel.UserDocument.SetPassword | models/user.model.js:163-166 | assigning the password marks its path modified only when the value changes |
| UserModel.UserDocument.SetPasswordConfirm | models/user.model.js:30-41 | assigning the confirmation marks its path modified only when the value changes |
| UserModel.UserDocument.ClearPasswordResetToken | models/user.model.js:153 | clearing the reset digest marks it modified only when one was set |
| UserModel.UserDocument.ClearPasswordResetExpires | models/user.model.js:154 | clearing the reset expiry marks it modified only when one was set |
| UserModel.UserDocument.CreatePasswordResetToken | models/user.model.js:210-227 | returns the plain token; stores only its digest and an expiry of now + 60,000,000 ms |
| UserModel.UserDocument.HashPasswordHook | models/user.model.js:163-180 | the document becomes the first hook applied to it |
| UserModel.UserDocument.PasswordChangedAtHook | models/user.model.js:182-188 | the document becomes the second hook applied to it |
| Store.WriteUser | controllers/authController.js:305 | a new document is appended; an existing one replaces the record with its id in place; nothing is written when no record has that id |
| Store.WriteUserKeepsUniqueIds | controllers/authController.js:305 | a write keeps ids unique, given that a new document carries an id not yet stored |
| Store.Database.SaveUser | models/user.model.js:23-41 | with validation on, a password under 8 UTF-16 code units or a confirmation not equal to it writes nothing; otherwise both hooks run in order and the result is inserted (new) or replaces the stored record with the same id |
| UserController.Suggest | controllers/userController.js:103-131 | a user is suggested iff active, not the caller, same title as the caller and not rejected by the caller; a caller that no longer resolves is a 500 |
| UserController.Send | controllers/userController.js:134-175 | an unknown recipient is an error; a record caller→recipient of any status gives "already sent"; otherwise exactly one pending record is appended |
| UserController.SendTwiceCreatesOne | controllers/userController.js:145-163 | sending twice leaves exactly one record in that direction, and the second send reports "already sent" |
| UserController.ReverseRequestDoesNotBlock | controllers/userController.js:145-148 | a request in the opposite direction does not stop a new one |
| UserController.SelfRequestAllowed | models/friendRequest.model.js:3-19 | nothing forbids a request from a user to themselves |
| UserController.Dismiss | controllers/userController.js:178-203 | an unknown target is a 404; otherwise the target id is appended to the end of the caller's rejectedUsers and every other user is unchanged |
| UserController.DismissHidesSuggestion | controllers/userController.js:189-192 | after a dismissal the target is never suggested to the caller |
| UserController.GetFriendRequests | controllers/userController.js:205-227 | exactly the records addressed to the caller whose sender resolves and is not rejected, of any status, each with the sender's summary; never longer than the ledger; a caller that no longer resolves is a 500 only when some record reaches the callback |
| UserController.IncomingFromConcat | controllers/userController.js:207-221 | the list for a concatenated ledger is the concatenation of the two lists, so entries follow ledger order |
| UserController.IncomingFromSingle | controllers/userController.js:207-221 | one record gives exactly one entry when it passes the filter and none otherwise |
| UserController.Accept | controllers/userController.js:229-260 | no record sender→caller is a 404; otherwise the first such record becomes accepted and nothing else changes |
| UserController.AcceptIdempotent | controllers/userController.js:235-251 | accepting again leaves the ledger as the first accept left it |
| UserController.FriendEntries | controllers/userController.js:292-332 | one entry per accepted record where the caller is a party and both parties resolve, namely the other party |
| UserController.FriendEntriesConcat | controllers/userController.js:292-332 | the mapped list for a concatenated ledger is the concatenation of the two mapped lists, so entries follow ledger order |
| UserController.FriendEntriesSingle | controllers/userController.js:292-332 | one record maps to its counterpart when it befriends the caller and to nothing otherwise |
| UserController.GetFriendsList | controllers/userController.js:289-355 | the counterparts of the caller's accepted records plus the caller's own entry, without duplicates, at most matching records + 1 long, ordered by the first occurrence of each entry in the mapped list with the own entry last; a caller that no longer resolves is a 500 |
| UserController.SelfEntryOnce | controllers/userController.js:334-348 | the caller's own entry occurs exactly once and is the only entry of its shape |
| UserController.OnlyAcceptedSurface | controllers/userController.js:292-295 | when every record between the caller and another user, in either direction, is not accepted, no friend entry carries that user's id |
| UserController.RequestAcceptScenario | controllers/userController.js:134-355 | A sends B a request; B's incoming list is that one request; after B accepts, each lists the other as a friend |
| UserController.AcceptedRecords | controllers/userController.js:407-410 | exactly the accepted records |
| UserController.AddPair | controllers/userController.js:413-424 | one callback keeps the bucket keys, adds exactly the ids the record contributes, and throws iff a title is not a key |
| UserController.TallyAll | controllers/userController.js:412-425 | all callbacks in turn keep the bucket keys and never remove an id |
| UserController.TallyAllSpec | controllers/userController.js:406-425 | after all callbacks, a bucket holds its old ids plus every id some record contributes, and the run failed iff some callback threw |
| UserController.TallyOrderFree | controllers/userController.js:412-425 | the order the callbacks run in does not change the buckets or the failure |
| UserController.TallyGrows | controllers/userController.js:392-403 | no bucket loses an id, so no count goes down across calls |
| UserController.CategorySizes | controllers/userController.js:427-431 | the reply has a count for exactly the bucket keys |
| UserController.FriendCounter.constructor | controllers/userController.js:392-403 | the accumulator starts with the ten title keys, each with an empty set |
| UserController.FriendCounter.AddRecord | controllers/userController.js:413-423 | one callback applied to the shared buckets |
| UserController.FriendCounter.Sizes | controllers/userController.js:427-431 | the for-in loop builds the size of every bucket |
| UserController.FriendCounter.FriendsCount | controllers/userController.js:406-438 | the buckets become all callbacks applied to the old buckets; the ten keys stay; no count decreases; a throw gives a 500, otherwise the sizes |
| UserController.SendFriendRequest | controllers/userController.js:134-175 | the handler's success flag and ledger are those of Send |
| UserController.AcceptFriendRequest | controllers/userController.js:229-260 | the handler's reply and ledger are those of Accept |
| UserController.DeleteSuggestion | controllers/userController.js:178-203 | the handler's reply and users are those of Dismiss |
| UserController.DeleteRequest | controllers/userController.js:262-287 | the same update as deleteSuggestion; the friend-request ledger is not touched |
| ChatController.Conversation | controllers/chatController.js:10-15 | exactly the chats between the two users, in either direction |
| ChatController.SortByTime | controllers/chatController.js:15 | ascending by timestamp and a permutation of its input |
| ChatController.GetChats | controllers/chatController.js:4-30 | sorted by timestamp, a permutation of the conversation, and containing exactly the chats between the two users |
| ChatController.Delete | controllers/chatController.js:33-58 | any missing field is a 400; no match is a 404; it succeeds iff all three fields are present and some record has that exact triple, and then the first such record is removed and the rest kept in order |
| ChatController.DeleteRemovesOne | controllers/chatController.js:43-51 | a delete lowers the count of matching records by exactly one and leaves other pairs' conversations unchanged |
| ChatController.Edit | controllers/chatController.js:62-90 | a missing sender or receiver is a 400 (messages unchecked); no match is a 404; it succeeds iff both ids are present and some record matches, and then only the first match's message becomes the new one |
| ChatController.EditPreservesHistory | controllers/chatController.js:73-77 | an edit keeps the store's size and every sender, receiver and timestamp, so every history keeps its length and order |
| ChatController.DeleteMessage | controllers/chatController.js:33-58 | the handler's reply and store are those of Delete |
| ChatController.EditMessage | controllers/chatController.js:62-90 | the handler's reply and store are those of Edit |
| Server.RoomKey | server.js:57-58 | a room key is the first id followed by the second |
| Server.RoomKeysDiffer | server.js:57-58 | for distinct ids of equal length the two rooms of one message differ |
| Server.RoomKeysMayCollide | server.js:57-58 | ids of different lengths made of one repeated character give the same key in both orders, so both events go to one room |
| Server.Relayed | server.js:43-51 | a chat is stored iff both e-mails resolve; it links their ids and carries the message and time |
| Server.Relay.constructor | server.js:31 | no rooms and no emissions at start |
| Server.Relay.JoinRoom | server.js:34-36 | the socket joins the room; no room loses a member |
| Server.Relay.ChatMessage | server.js:38-65 | when both resolve, exactly one chat is appended, then messageSaved goes to sender+recipient and messageReceived to recipient+sender with that chat; otherwise nothing changes |
| Server.Relay.Disconnect | server.js:67-69 | the socket leaves every room (socket.io does this on disconnect; the handler only logs); every other member stays, and no emission or store changes |
| AuthController.Login | controllers/authController.js:73-90 | missing email or password is a 400; unknown user or wrong password is a 401; it succeeds iff both fields are present, the email resolves and the password matches, with the token signed for that user |
| AuthController.Guard | controllers/authController.js:125-150 | stops at no token, then an unverifiable token, then a user that does not resolve, then a changed password, in that order; grants only an active stored user with the token's id |
| AuthController.Protect | controllers/authController.js:104-154 | succeeds iff the guard grants; refusals are 401 except a bad token, which reaches the error middleware |
| AuthController.IsLoggedIn | controllers/authController.js:156-196 | 200 iff the guard grants, 500 iff the token fails to verify, otherwise 401 |
| AuthController.GuardsAgree | controllers/authController.js:104-196 | `isLoggedIn` answers 200 exactly where `protect` lets the request through, and otherwise the status code of the error `protect` hands on |
| AuthController.PasswordChangeRevokesTokens | controllers/authController.js:144-148 | a token issued a whole second before a stamped password change is refused by both guards |
| AuthController.RestrictTo | controllers/authController.js:198-208 | passes iff the role is one of the allowed roles, otherwise 403 |
| AuthController.DefaultRoleRestricted | controllers/authController.js:198-208 | a default-role user passes iff "user" is allowed; admin-only routes refuse it |
| AuthController.DecimalString | controllers/authController.js:324 | the decimal rendering is non-empty and all digits |
| AuthController.ParseDecimalString | controllers/authController.js:324 | the rendering reads back as the number |
| AuthController.DecimalLength | controllers/authController.js:324 | a number in [10^(k−1), 10^k) renders with k digits |
| AuthController.OtpCode | controllers/authController.js:324 | a code from the random range is six digits that read back as the drawn value |
| AuthController.Issue | controllers/authController.js:321-337 | every call appends one record with the phone, the six-digit code, no user link and expiry now + 600,000 ms; a missing phone stores nothing |
| AuthController.FirstOtp | controllers/authController.js:344 | the first record with that phone and code |
| AuthController.Verify | controllers/authController.js:339-362 | no match or an expiry strictly before now is a 400 with nothing changed; otherwise that record's code and expiry are cleared and it is kept although its required fields are missing |
| AuthController.VerifySingleUse | controllers/authController.js:350-353 | a verification uses up one matching record; if it was the only one the same code then fails at any time |
| AuthController.IssuedCodeLifetime | controllers/authController.js:330 | a fresh code verifies at its expiry instant and fails one millisecond later |
| AuthController.ResetLookup | controllers/authController.js:277-280 | finds only an active user with the same digest and an expiry strictly after now |
| AuthController.WithResetToken | controllers/authController.js:236-238 | the issued token is selectable at t iff t < issue time + 60,000,000 ms; nothing else changes |
| AuthController.AfterFailedEmail | controllers/authController.js:251-255 | after the e-mail failed the digest stays but no reset can select the record |
| AuthController.ForgotPassword | controllers/authController.js:226-268 | unknown email is a 404; otherwise the token is issued and saved; on e-mail failure only the expiry is cleared and saved again |
| AuthController.AfterReset | controllers/authController.js:299-305 | both reset fields are cleared; a new password is hashed and stamps the change at now−1000, and keeps a confirmation only when it was empty; an unchanged password stays as it was with the given confirmation; nothing else changes |
| AuthController.ResetIsFinal | controllers/authController.js:299-305 | after a reset no token selects the record, and tokens older than the change are refused |
| AuthController.ResetPassword | controllers/authController.js:270-308 | no selectable record is an error; a wrong old password is a 400; invalid new values are an error; otherwise the reset record is written and a token signed |
| AuthController.DeleteMe | controllers/authController.js:210-224 | the caller's record is soft-deleted |
| AuthController.OtpSending | controllers/authController.js:321-337 | the handler's reply and code store are those of Issue |
| AuthController.VerifyOtp | controllers/authController.js:339-362 | the handler's reply and code store are those of Verify |

## Left out

- Express wiring, CORS, static files and the error middleware (routes/userRoutes.js, app.js). They only map URLs to these handlers. An error that carries no status code (a TypeError, a CastError, a rejected promise) reaches the middleware as a 500 and is written as `ServerError`; an `AppError` keeps its own code.
- The payment controller: its Stripe call and floating-point amount are outside this model.
- The SMS and e-mail senders. They are collaborators with no state. `ForgotPassword` takes the e-mail outcome as a boolean.
- JWT, bcrypt, SHA-256, `randomBytes` / `randomInt` and `Date.now`. They are function parameters and integers; no cryptography is modelled.
- `protect` reads its token from `localStorage`, which does not exist on the server. The model takes the token as an input.
- The socket.io transport, `mongoose.connect` and `server.listen`. Rooms are a map and emissions a log.
- `updateMe`: it calls `filterObj`, which is not defined, so its behaviour cannot be stated. `updateUserSchema`, `signUp`, `logout`, `contactUs`, `getAllUsers`, `getUser` and `deleteUser` are also out: they are pass-throughs outside the core.
- Mongoose's handling of `undefined` values in a query filter (they are dropped from the filter), email lowercasing, field projections (`select`, `populate` field lists), `updatedAt` and record `_id`s other than users'.
- Database failures: every `await` on the store succeeds in the model. The outer catch of `forgotPassword` is never reached, and the `deleteSuggestion` save cannot fail.
- UserController.FriendsCount: `Promise.all` runs as a sequential loop; TallyOrderFree shows the order does not matter. The model does not capture that a rejected `Promise.all` replies before the remaining callbacks finish.
- ChatController.GetChats: the database does not specify the order of chats with equal timestamps; the model keeps store order, and the contract states only sortedness and permutation.
- UserModel.SoftDelete: its own contract states only the size; what it means for lookups is SoftDeletedNeverResolves.
- UserModel.ChangedPasswordAfter: the exact condition is stated only for change times at or after the epoch (Seconds models `parseInt`'s truncation for negative times too).
- AuthController.ResetPassword: Mongoose validation errors other than password length and confirmation (email format, required name) are not modelled.
- Server.Relayed: the Chat schema is not part of this model. Its timestamp is taken as the save time, and a missing message is not rejected.
- UserController.Dismiss: ids are any strings. A malformed ObjectId makes Mongoose throw a CastError (a 500); the model answers 404, as for an unknown id.
- UserController.Accept: ids are any strings. A malformed ObjectId makes Mongoose throw a CastError (a 500); the model answers 404, as for a missing record.
- ChatController.Delete: ids are any strings. A malformed ObjectId makes Mongoose throw a CastError (a 500); the model answers 404, as for a missing record.
- ChatController.Edit: ids are any strings. A malformed ObjectId makes Mongoose throw a CastError (a 500); the model answers 404, as for a missing record.
- ChatController.GetChats: ids are any strings. A malformed ObjectId makes Mongoose throw a CastError (a 500); the model answers with an empty history.
- AuthController.ResetPassword: a missing `oldPassword` makes bcrypt reject (a 500); the model writes the missing field as the empty string, which `compare` refuses, so it answers 400.
- UserModel.UserDocument.New: the `role` enum validator is not modelled; no handler in this model assigns a role other than the default.
