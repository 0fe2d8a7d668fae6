# Account creation and session gating of a WhatsApp-clone backend

This project models the authentication core of a small Express/Mongoose
messaging backend and proves properties of the model in Dafny:

- **Signup** (`createAccount`). The handler checks that the four fields are
  present. It refuses an email that is already stored. It hashes the password
  with bcrypt (cost 10) and inserts the user. It then signs a 7-day JWT for the
  new id, sets the `authToken` cookie and answers 201 with the public fields of
  the user. Every exception along the way ends in one catch-all answer.
- **User schema** (`Model/user.js`). It trims `name`. It lowercases and trims
  `username`. It lowercases `email`. It requires `name`, `username` and
  `password`, and it fills in defaults. A unique index covers `username` and a
  unique sparse index covers `email`. The users collection is a `Db` value
  (documents by id plus the next fresh id). In the imperative code it is a
  `UserCollection` object whose `Create` method inserts a document.
- **Authorization gate** (`authUser`). It either answers 401 or writes
  `req.userId` and calls `next`, never both and never neither. It does not
  touch the store.
- **Current-session lookup** (`getCurrentUser`). This is a read-only branch
  sequence: no token, bad token, user not found, success. On success it answers
  with the user minus the password, and each friend is reduced to a summary.

`bcrypt.hash`, `jwt.sign` and `jwt.verify` are oracles: function-valued
parameters that return `None` when the library throws. Whether each database
call reaches the server is a boolean parameter. Other inputs are parameters
too: `JWT_SECRET`, `NODE_ENV === "production"` and the clock (`Date.now`, the
timestamps plugin). Nothing is assumed of the oracles, except in the lemmas
that replay a cookie. Those assume `Agrees(sign, verify)`: a token that `sign`
produced is non-empty, and `verify` accepts it under the same secret and
returns the signed id.

Modules: `Wrappers` (Option, Result), `Session` (the jsonwebtoken interface and
the cookie name), `Http` (JSON bodies, cookies, replies, Express's `req` and
`res`), `UserModel`, `UserController`, `AuthUser`, `GetCurrentUser`, and
`SessionFlow` (the handlers used one after another).

`createAccount` and `authUser` change state step by step, so each is an
imperative method over objects, with a `modifies` clause:
`UserController.CreateAccount` over a `UserCollection` and a `Response`, and
`AuthUser.AuthUser` over a `Request`, a `Response` and a `Next` handler
counter. Each method is proved equal to a specification function
(`UserController.Signup`, `AuthUser.Gate`). The properties are lemmas about
those functions. `getCurrentUser` and the schema are pure functions.

Behaviour of the code that the model keeps and that a reader might not expect:

- A username that is already taken is not answered with 409. The unique index
  refuses the insert, and the catch-all answers status 200
  `{success:false, message:"Internal server error"}` (`SignupDuplicateUsername`).
- A `jwt.sign` failure happens after the insert. The new user stays stored
  while the client is told "Internal server error" (`SignupFailureEffect`).
- A `name` or `username` made of white space passes the `!field` test. The
  schema then trims it to the empty string, the `required` validator fails, and
  the answer is the catch-all one (`SignupWhitespaceField`).
- `getCurrentUser` sets no status for a missing or bad token, so Express sends
  200. `authUser` sends 401 in the same cases (`MissingTokenStatuses`).
- Mongoose runs schema setters on query filters. So `findOne({ email })` looks
  up the lowercased email, and the 409 check is on `Lower(email)`.
- `findById(undefined)` is looked up as `_id: null` and finds nothing. So a
  verified token whose payload has no `id` gets 404 "User not found".
- `populate` drops references to friends that no longer exist. The selected
  fields `name email profilePic` also keep `_id`, so each friend summary carries
  its id.

## Model

| member | source | states |
|---|---|---|
| UserController.CreateAccount | Controller/userController.js:5-60 | The handler run over the live collection and a fresh response. The collection afterwards and the reply sent (status, JSON body, cookies) are exactly those of `Signup` on the collection before. |
| UserController.Signup | Controller/userController.js:5-60 | The handler as a function of the collection before the request: the collection after it and the reply sent. Its properties are the `Signup…` lemmas below. |
| UserController.Signup400Iff | Controller/userController.js:10-12 | The answer is 400 exactly when one of the four fields is absent or empty. |
| UserController.Signup409Iff | Controller/userController.js:15-18 | The answer is 409 exactly when the fields are present, `findOne` reaches the store and a stored user has the lowercased email. |
| UserController.SignupInternalIff | Controller/userController.js:15-32 | The catch-all reply is sent exactly when the fields are present and an awaited call throws. Either `findOne` cannot reach the store, or the email is free and one of these fails: `bcrypt.hash`, `User.create` (validation, a unique index, an unreachable store) or `jwt.sign`. |
| UserController.SignupWhitespaceField | Controller/userController.js:10-27 | A name or username of white space only passes the `!field` test. Unless the email is taken (409), the answer is the catch-all one and nothing is stored. If `findOne` or the hash fails, the catch-all answers at that step. Otherwise the schema trims the field to empty and `User.create` throws. |
| UserController.AuthCookie | Controller/userController.js:35-40 | The `res.cookie` call as a value. Its attributes are stated by `AuthCookieAttributes`. |
| UserController.UserJson | Controller/userController.js:45-54 | The `user` object of the 201 answer: `id`, `name`, `username`, `email`, `profilePic`, `about`, `lastSeen`, `friends` of the created document. `SignupCreated` states its keys and `UserJsonHasNoPassword` that no password is in it. |
| UserController.CreatedBody | Controller/userController.js:42-55 | The 201 body `{success: true, message, user}`. `SignupCreated` states what its `success` and `user` members hold. |
| UserController.SignupMissingField | Controller/userController.js:10-12 | If name, username, email or password is absent or empty, the answer is 400 "All fields are required" with no cookie, and the store is unchanged. The result is the same under every environment, so the store, the hash and the signer are never consulted. |
| UserController.SignupConflict | Controller/userController.js:15-18 | If a stored user already has the lowercased email, the answer is 409 "User already exists" with no cookie, and the store is unchanged. The result does not depend on the hasher, the signer or the insert, so none of them is reached. |
| UserController.SignupCreatedIff | Controller/userController.js:10-32 | The answer is 201 exactly when validation passes, the email is free, the hash succeeds, the insert succeeds and a token is signed for the new id. |
| UserController.SignupReplies | Controller/userController.js:10-59 | A cookie is set exactly on the 201 answer. Every answer is 400, 409, 201 or the catch-all reply. |
| UserController.SignupCreated | Controller/userController.js:20-55 | On 201 the store gains exactly one user, under a fresh id, and every existing user is unchanged. The stored password is `hash(password, 10)`. The stored name is trimmed, the username lowercased and trimmed, the email lowercased, and the defaults are applied. The one cookie carries the token signed over `{id}` with a 7-day lifetime. The body has `success: true`, and its `user` holds exactly the keys id, name, username, email, profilePic, about, lastSeen, friends. |
| UserController.SignupNeverSendsPassword | Controller/userController.js:10-59 | No answer, on any path, has a `password` member anywhere in its JSON body. |
| UserController.UserJsonHasNoPassword | Controller/userController.js:42-55 | The public user object and the 201 body built from it contain no `password` member. |
| UserController.SignupPreservesValid | Controller/userController.js:15-27 | If the collection invariant held before, it holds after every signup. The invariant covers unique usernames, unique emails among users that have one, normal-form documents and fresh ids. |
| UserController.SecondSignupConflicts | Controller/userController.js:15-18 | After a successful signup, any complete signup whose lowercased email is the same is answered 409 and changes nothing. |
| UserController.SignupFailureEffect | Controller/userController.js:22-32 | A signup that is not answered 201 leaves the store unchanged unless the insert succeeded. In that case `jwt.sign` failed, and the answer is the catch-all reply. |
| UserController.SignupDuplicateUsername | Controller/userController.js:22-27 | If the normalised username is taken and the email is not found taken, the store is unchanged and the answer is the catch-all reply, not 409. This holds whether or not `findOne` and the hash succeed. |
| UserController.AuthCookieAttributes | Controller/userController.js:35-40 | The cookie is `authToken`. It is always httpOnly. `secure` is true exactly in production. `sameSite` is "none" exactly in production and "lax" otherwise. `maxAge` is 604800000 ms, the token's lifetime in milliseconds. |
| UserModel.Cast | Model/user.js:4-26 | The schema's cast of a new document: setters, defaults, required validators, timestamps. Its properties are `CastSucceedsIff`, `CastFields` and `CastIsNormal`. |
| UserModel.Insert | Model/user.js:10-14 | `User.create`: the cast, then the store's reachability, then the two unique indexes. Its properties are `InsertChecked`, `InsertOk` and `InsertPreservesValid`. |
| UserModel.AddUserFresh | Model/user.js:4-28 | Writing a document under the next id adds exactly that key and leaves every other document as it was. |
| UserModel.FindById | Middleware/getCurrentUser.js:11 | `User.findById(decoded.id)`: the stored document, or nothing when the id is undefined or not stored. `CurrentUserOutcomes` and `CurrentUserSuccess` state what the lookup makes of it. |
| UserModel.Trim | Model/user.js:6 | The `trim: true` setter. `TrimStartSpec`, `TrimEndSpec`, `TrimExtent` and `TrimIdempotent` state what it removes. |
| UserModel.TrimAllSpace | Model/user.js:6 | A string made only of white space trims to the empty string. |
| UserModel.Lower | Model/user.js:11 | The `lowercase: true` setter, letter by letter. `LowerIdempotent` and `LowerTrimCommute` state its properties. |
| UserModel.CastSucceedsIff | Model/user.js:6-15 | The schema accepts a document exactly when the trimmed name, the lowercased and trimmed username, and the password are present and non-empty. |
| UserModel.CastFields | Model/user.js:6-25 | An accepted document keeps each value it was given, after the setters: trimmed name, lowercased and trimmed username, lowercased email, the password as given. A supplied profilePic, about, isOnline, lastSeen or friends is kept. An undefined one gets its default: the placeholder picture, the WhatsApp about text, false, now, no friends. Both timestamps are now. |
| UserModel.CastIsNormal | Model/user.js:6-15 | Every document the schema accepts is a fixed point of its setters and meets the required validators. |
| UserModel.InsertOk | Model/user.js:4-28 | An accepted insert adds one document under the fresh id. The id is not yet in the collection and no other document changes. |
| UserModel.InsertChecked | Model/user.js:10-14 | An accepted insert clashes with neither the username index nor, when it has an email, the email index. |
| UserModel.InsertPreservesValid | Model/user.js:10-14 | Every accepted insert preserves the collection invariant: unique usernames, sparse-unique emails, normal-form documents, fresh ids. |
| UserModel.AddUserPreservesValid | Model/user.js:10-14 | Adding a fresh, normal document that clashes with neither index preserves the invariant. |
| UserModel.UniqueUsernames | Model/user.js:10 | The unique index on `username`: no two stored documents share a username. |
| UserModel.UniqueEmails | Model/user.js:14 | The unique sparse index on `email`: no two stored documents that have an email share it. Documents without one are not indexed. |
| UserModel.Valid | Model/user.js:4-26 | The collection invariant: each document is stored under its own id, ids are below the next fresh one, every document is a fixed point of the setters and meets the required validators, and both indexes hold. |
| UserModel.UserCollection.constructor | Model/user.js:28 | A new collection is empty, its next id is 0, and the invariant holds from the start. |
| UserModel.UserCollection.FindOneByEmail | Controller/userController.js:15 | `User.findOne({email})` fails when the store is unreachable. Otherwise it finds a document exactly when one has that email, and what it returns is a stored document with that email. |
| UserModel.UserCollection.Create | Controller/userController.js:22-27 | `User.create` returns the schema and index verdict. The collection gains the document exactly when that verdict is success. |
| UserModel.TrimStartSpec | Model/user.js:6 | Trimming the start leaves a suffix, removes only white space and leaves no leading white space. |
| UserModel.TrimEndSpec | Model/user.js:6 | Trimming the end leaves a prefix, removes only white space and leaves no trailing white space. |
| UserModel.TrimEnds | Model/user.js:6 | A non-empty trimmed string starts and ends with a non-space character. |
| UserModel.TrimExtent | Model/user.js:6 | The trimmed string is a contiguous part of the original, and everything removed at either end is white space. |
| UserModel.TrimIdempotent | Model/user.js:6 | Trimming twice is trimming once. |
| UserModel.LowerIdempotent | Model/user.js:11 | Lowercasing twice is lowercasing once, and the result has no upper-case ASCII letter. |
| UserModel.LowerTrimCommute | Model/user.js:11-12 | The username's two setters commute, so their order does not matter. |
| Session.PresentToken | Middleware/authUser.js:5-7 | `req.cookies.authToken` as the `!token` test sees it: the token when the cookie is present and non-empty, nothing otherwise. `GateProceedsIff` and `CurrentUserOutcomes` state what each middleware does with it. |
| AuthUser.Gate | Middleware/authUser.js:3-16 | The middleware's decision: proceed with the decoded id, or reject with a 401 reply. `GateProceedsIff`, `GateRejections` and `GateReadsOnlyAuthCookie` state it. |
| AuthUser.AuthUser | Middleware/authUser.js:3-16 | Exactly one of the two outcomes happens. Either `req.userId` becomes the decoded id, `next` is called once and nothing is written to the response. Or the gate's 401 reply is sent, `next` is not called and `req.userId` is untouched. The store is not in the frame. |
| AuthUser.GateProceedsIff | Middleware/authUser.js:5-12 | The gate lets a request through exactly when the `authToken` cookie is present, non-empty and verifies. The id it passes on is the decoded id. |
| AuthUser.GateRejections | Middleware/authUser.js:7-14 | Every rejection is 401 with no cookie. The body is "Not authenticated" exactly when the token is missing and "Invalid token" exactly when it fails to verify. |
| AuthUser.GateReadsOnlyAuthCookie | Middleware/authUser.js:5 | Two requests that agree on the `authToken` cookie get the same decision. |
| AuthUser.SignedTokenPassesGate | Middleware/authUser.js:9-12 | Under `Agrees`, a cookie holding a token minted for an id lets the request through with that id. |
| GetCurrentUser.CurrentUser | Middleware/getCurrentUser.js:4-24 | The handler as a function of the cookies, the secret, the verifier, the collection and the store's reachability. `CurrentUserOutcomes` and `CurrentUserSuccess` state its branches. |
| GetCurrentUser.Project | Middleware/getCurrentUser.js:11-13 | `.select("-password").populate(...)`: every stored field but the password, with friends populated. `CurrentUserSuccess`, `FriendsAreSummaries` and `PublicJsonHasNoPassword` state it. |
| GetCurrentUser.FriendJson | Middleware/getCurrentUser.js:13 | A populated friend as sent: `_id`, `name`, `email` when the friend has one, `profilePic`. `FriendJsonShape` states its keys. |
| GetCurrentUser.PublicJson | Middleware/getCurrentUser.js:11-13 | The selected, populated user as `res.json` sends it. `CurrentUserSuccess` states its keys, `FriendsAreSummaries` its friends and `PublicJsonHasNoPassword` that no password is in it. |
| GetCurrentUser.PublicUserKeys | Middleware/getCurrentUser.js:11-12 | The keys of a selected user: every schema path but `password`, `_id`, and the two timestamps. |
| GetCurrentUser.SuccessBody | Middleware/getCurrentUser.js:18 | The success body `{success: true, user}`. `CurrentUserSuccess` states that its `user` member is the selected user. |
| GetCurrentUser.Populate | Middleware/getCurrentUser.js:13 | The populated friends are summaries of stored documents among the friend references, and every reference to a stored document appears. |
| GetCurrentUser.CurrentUserOutcomes | Middleware/getCurrentUser.js:6-22 | The branches, each as an if-and-only-if. "Not authenticated" means no token. "Invalid or expired token" means the token failed to verify or the store was unreachable. 404 "User not found" means the id matches no user. `success: true` means a user was found. Only 404 sets a status, and no branch sets a cookie. |
| GetCurrentUser.CurrentUserSuccess | Middleware/getCurrentUser.js:11-18 | On success the answer is `{success: true, user}`. `user` is the stored user for the token's id, with every stored field except the password. The JSON sent has exactly the keys `_id`, `name`, `username`, `email` (when stored), `profilePic`, `about`, `isOnline`, `lastSeen`, `friends`, `createdAt`, `updatedAt`. |
| GetCurrentUser.FriendJsonShape | Middleware/getCurrentUser.js:13 | A friend summary has exactly `_id`, `name`, `email` (when the friend has one) and `profilePic`, and no password. |
| GetCurrentUser.FriendsAreSummaries | Middleware/getCurrentUser.js:13 | The answered user has a `friends` array, and every element of it is the summary of a populated friend, with keys only among `_id`, `name`, `email`, `profilePic`. |
| GetCurrentUser.PublicJsonHasNoPassword | Middleware/getCurrentUser.js:12-13 | The selected user, friends included, has no `password` member anywhere. |
| GetCurrentUser.CurrentUserNeverSendsPassword | Middleware/getCurrentUser.js:6-22 | No answer, on any branch, has a `password` member anywhere in its body. |
| GetCurrentUser.FoundImpliesGateProceeds | Middleware/getCurrentUser.js:9-11 | Any request this lookup answers for would also pass `authUser`, with the id of the user answered. |
| GetCurrentUser.MissingTokenStatuses | Middleware/getCurrentUser.js:7 | With no token, `authUser` answers 401 while `getCurrentUser` sets no status (Express's 200). |
| SessionFlow.SignupThenGate | Controller/userController.js:30-40 | Under `Agrees`, the cookie from a successful signup, sent back by the client, passes the gate with the new user's id. |
| SessionFlow.SignupCookie | Controller/userController.js:30-40 | After a successful signup the token was minted, the client keeps exactly the `authToken` cookie holding it, the new id is stored, and the collection invariant holds. |
| SessionFlow.MintedTokenIsFound | Middleware/getCurrentUser.js:6-11 | Under `Agrees`, a cookie jar holding a token minted for a stored id is one the lookup finds a user for, and the decoded id is that id. |
| SessionFlow.SignupThenCurrentUser | Controller/userController.js:20-40 | Under `Agrees`, the cookie from a successful signup makes the current-session lookup answer with the new user: its id, normalised username and email, no friends, no password. |

## Left out

- Hashing, signing and verifying are opaque: bcrypt's salting and work factor, and jsonwebtoken's HMAC, header and `exp` check. `Agrees` is the only link assumed between signer and verifier, and only the replay lemmas assume it.
- The clock is a parameter. `lastSeen` defaults to `Date.now`, and `createdAt`/`updatedAt` come from the timestamps plugin. Token expiry is whatever the verifier oracle reports at request time.
- UserModel.Cast: one clock reading, `now`, serves both the `lastSeen` default and the timestamps. Mongoose reads `Date.now` when it builds the document and the timestamps when it saves it. So the model has `lastSeen == createdAt` for every new user, which the source does not guarantee.
- ObjectIds are natural numbers handed out in order. Hex encoding, casting and `CastError` for malformed ids are not modelled, and the JSON shows ids as numbers.
- Dates are integers (milliseconds). `res.json` writes `lastSeen`, `createdAt` and `updatedAt` as ISO 8601 strings, but `UserJson` and `PublicJson` hold them as `JNum`.
- The version key `__v` is not modelled.
- `Lower` lowercases only ASCII letters, while JavaScript's `toLowerCase` covers all of Unicode. `Trim` removes exactly the characters `String.prototype.trim` removes.
- Body fields are either absent or strings. Non-string JSON values (numbers, objects, arrays) are not modelled.
- When several required paths fail, Mongoose reports them all, but the model reports only the first in schema order. When several unique indexes clash, the model reports username before email. Neither choice is visible, because the catch-all answer hides which error occurred.
- async interleaving and concurrent requests are not modelled. Two signups racing past the email check would be stopped by the unique index, which the model's `Insert` checks too.
- A `next()` that throws synchronously inside `authUser`'s `try` would also trigger its 401 answer. The downstream handlers are async, and the model treats `next` as not throwing.
- Console logging, environment-variable reads (passed in as parameters) and `req.cookies` being undefined without cookie-parser are not modelled.
- server.js (CORS, parsers, `connectDB`, `listen`) and Router/userRouter.js are not part of this model. The router imports `getCurrentUser` from Middleware/authUser.js, which does not export it. The model takes the handler from its own file.
- OTP login, messaging and friend mutation have no code in the modelled files, so they are not modelled.
