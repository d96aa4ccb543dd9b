# Signaling server handshake and relay, in Dafny

This project models the core of a WebRTC signaling server in Dafny. The
server lets registered peers find each other and relay connection offers and
signal data.

- **Authentication.** Users authenticate by signing a challenge with their
  OpenPGP key instead of using a password. An 8-minute *session token* is
  exchanged for a 24-hour *auth token*.
- **Connection gate.** A check admits a real-time connection only with a
  valid auth token.
- **Signaling session.** Each connected device gets a session that joins two
  rooms: one named after the user, one after `user@device`. It relays
  invites, offer requests, offers and signals to other users' rooms.

Modules, one per source component:

- `Wrappers`: `Option`.
- `Text`: the two string normalisations the server applies, `toLowerCase`
  and `trim`.
- `Jwt`: HS256 tokens signed with one process secret. A token is modelled by
  what it decodes to: claims, algorithm, `exp` and the secret that signed it.
  `Verify` fails closed: a token that does not decode, uses another algorithm
  or secret, or has expired gives `None`.
- `OpenPgp`: the OpenPGP capability as a value holding three total functions
  that the caller supplies. Nothing is assumed about what they return.
- `Users`: the user document (`class User`) and the directory of stored
  users (`class Directory`, a `map` keyed by lower-case username).
  - The directory's functions `FindByName`, `GetSessionToken` and
    `AuthToken` model the mongoose statics of `app/models/User.js`.
  - The token logic (`VerifyAuthToken`, `GenerateAuthToken`,
    `CheckSignature`, `Authenticate`) is a set of pure functions of the
    document.
  - `AddInvite`, `RemoveInvite` and `Register` update the document in place.
  - Each in-place update is specified by a pure list function
    (`WithInvite`, `WithoutInvite`). Lemmas prove what those list functions
    promise.
- `Signaling`: `class Signal`, one connected device's session.
  - The transport is modelled by three fields: the set of joined rooms, the
    event names the socket listens to, and an append-only `outbox` of
    `(room, event)` pairs. The outbox stands for `io.to(room).emit(...)`.
  - Each relay method states exactly what it appends.
- `AuthController`: the session-token and authentication HTTP handlers, as
  functions from the directory and the request to one reply.
- `SocketAuth`: the connection gate, as a function from the handshake query
  to accept or reject.

Calls that return promises become sequential calls. A promise that rejects
and that nothing catches is modelled explicitly: `Rejected` from
`Authenticate`, which makes `NoReply` from the authentication handler.

The clock and the JWT secret are parameters (`now`, `secret`). So are OpenPGP
and `JSON.parse`, passed in `Users.Services`.

## Model

| member | source | states |
|---|---|---|
| `Text.Lower` | app/models/User.js:61 | the lower-cased name has the same length; every ASCII capital becomes its small letter and every other character is kept |
| `Text.LeadingWhitespace` | app/controllers/auth.js:13 | counts exactly the run of white space at the front: every counted character is white space and the next one is not |
| `Text.Trim` | app/controllers/auth.js:13 | the result is a contiguous slice of the input; everything cut from either end is white space; the result neither starts nor ends with white space |
| `Text.TrimIdempotent` | app/models/Signal.js:61 | trimming a trimmed string changes nothing |
| `Jwt.Sign` | app/models/User.js:89-93 | a signed token carries exactly the given claims and expires `lifetime` seconds after issue |
| `Jwt.Verify` | app/models/User.js:250-262 | decoding succeeds only for a token signed with this secret that has not expired, and then yields its claims; every failure is `None`, never an exception |
| `Jwt.VerifySigned` | app/models/User.js:89-93 | a minted token verifies exactly under its own secret and strictly before issue + lifetime |
| `Users.FilteredMembers` | app/models/User.js:301-303 | the filtered list holds exactly the entries of other inviters |
| `Users.FilteredAppend` | app/models/User.js:301-303 | filtering distributes over concatenation, so the kept entries stay in their original order |
| `Users.FilteredKeepsOnePerInviter` | app/models/User.js:301-303 | filtering a list with at most one invite per inviter keeps that property |
| `Users.AddInviteAppendsOnce` | app/models/User.js:273-286 | a pending invite from the lower-cased inviter leaves the list unchanged; otherwise exactly one entry is appended at the end, with the username lower-cased; afterwards the inviter always has an entry |
| `Users.AddInviteIdempotent` | app/models/User.js:273-286 | adding the same invite twice gives the same list as adding it once |
| `Users.AddInviteKeepsOnePerInviter` | app/models/User.js:276-283 | adding keeps the list at one invite per inviter |
| `Users.RemoveInviteRemovesOnlyThatInviter` | app/models/User.js:295-306 | afterwards no entry from the lower-cased name is left; every entry from another inviter stays; the list is unchanged when there was no such entry |
| `Users.RemoveAfterAdd` | app/models/User.js:273-306 | removing right after adding gives the same list as removing alone; for an inviter with no pending invite, that is the original list |
| `Users.User.GetPublicData` | app/models/User.js:125-127 | returns the username, fingerprint and public key; its reads clause excludes `pendingInvites`, so the result can never depend on them |
| `Users.User.VerifyAuthToken` | app/models/User.js:238-241 | true exactly for an HS256 token signed with the secret, unexpired at `now`, whose `loggedInAs` is this user's name |
| `Users.User.GenerateAuthToken` | app/models/User.js:220-231 | issues a token exactly when the session token verifies and its `sessionTokenFor` is this user's name; the new token's only claim is `loggedInAs` = this user |
| `Users.User.CheckSignature` | app/models/User.js:171-189 | yields text exactly when the signature parses, the stored key is readable and the signature is valid under it, and the text is the signed text; rejects exactly when the signature parses but the stored key is unreadable |
| `Users.User.Authenticate` | app/models/User.js:198-211 | rejects exactly when the signature parses and either the stored key is unreadable or the valid, non-empty signed text is not JSON; an issued token passes this user's `verifyAuthToken` |
| `Users.User.AddInvite` | app/models/User.js:273-286 | the new pending list is `WithInvite` of the old one; no other field changes |
| `Users.User.RemoveInvite` | app/models/User.js:295-306 | the new pending list is `WithoutInvite` of the old one; no other field changes |
| `Users.User.Register` | app/models/User.js:135-163 | the username is lower-cased even when the key is unreadable; an unreadable key rejects with the fingerprint unchanged and nothing stored; otherwise the fingerprint is the key's; the user is stored exactly when every required field is non-empty and the name is free; once stored it is found under any casing of the original name |
| `Users.Directory.FindByName` | app/models/User.js:60-64 | a user is found exactly when the lower-cased query is a stored username |
| `Users.Directory.GetSessionToken` | app/models/User.js:83-94 | no token exactly when no user is found |
| `Users.Directory.AuthToken` | app/models/User.js:103-110 | true exactly when the lower-cased name is stored and the token passes that user's `verifyAuthToken` |
| `Users.StoredUserIsFoundByName` | app/models/User.js:60-64 | a stored user's name is lower-case, and looking it up finds that very user |
| `Users.FindByNameIgnoresCase` | app/models/User.js:60-64 | names that lower-case alike find the same user, whose stored name is the lower-cased query |
| `Users.SessionTokenWindow` | app/models/User.js:83-94 | a session token's claim is `sessionTokenFor` = the stored username; it verifies only under the secret that signed it, and only for 8 minutes |
| `Users.AuthTokenWindow` | app/models/User.js:220-241 | an auth token passes its user's `verifyAuthToken` exactly for 24 hours after issue |
| `Users.SessionTokenIsNotAuthToken` | app/models/User.js:238-241 | a session token never passes `verifyAuthToken`, for any user at any time |
| `Users.AuthTokenIsNotSessionToken` | app/models/User.js:220-224 | an auth token is never exchanged for another auth token, for any user at any time |
| `Users.SessionTokenIsPerUser` | app/models/User.js:220-224 | a session token that one user can exchange is refused for every user with another name |
| `Users.AuthenticateRefusals` | app/models/User.js:198-211 | for a readable stored key and a JSON signed text, `authenticate` resolves false when the signature is invalid under the user's key, when the payload names another user, or when its `msg` is not `SIGNAL_AUTH_REQUEST` |
| `Users.AuthenticateExchangesSessionToken` | app/models/User.js:198-211 | once the signature is valid and the payload names the user with the request tag, `authenticate` returns `generateAuthToken`'s token for the payload's session token, or false when it gives none |
| `Users.AuthenticateIssuesOnlyWithProof` | app/models/User.js:198-211 | a token is issued only for a valid signature under the user's key, over a payload with the user's name, the request tag and a valid session token for that user; the issued token passes that user's `verifyAuthToken` |
| `Signaling.Room` | app/models/Signal.js:47-49 | a device room is the username, then '@', then the device id |
| `Signaling.InviteRoute` | app/models/Signal.js:107-118 | no lookup and no emit exactly when the lower-cased target is the sender; otherwise the lookup name and the emit room are both the lower-cased target, which is never the sender |
| `Signaling.ExactSelfInviteIsNoRoute` | app/models/Signal.js:108 | a sender naming itself by its stored, lower-case name is never routed |
| `Signaling.SelfInviteAsWritten` | app/models/Signal.js:107-118 | as written, "Alice" sent by the stored user "alice" passes the self check, resolves to alice's own record, and is emitted to a room no stored user has |
| `Signaling.Signal.Me` | app/models/Signal.js:146-147 | the session's own device carries the user's name and the session's trimmed device id, and its room is `mySocketRoom` |
| `Signaling.Signal.constructor` | app/models/Signal.js:57-81 | built for a stored user; the device id is the trimmed handshake id; the socket joins exactly the user room and `user@device`; it listens to error, disconnect and the five relay events; the outbox holds just the pending-invite flush |
| `Signaling.Signal.SendPendingInvites` | app/models/Signal.js:94-98 | appends one 'invite' emit per pending invite, in list order, all to this device's room |
| `Signaling.Signal.SendInvite` | app/models/Signal.js:107-123 | a self-invite, in particular one naming the sender's exact stored name, changes nothing. Otherwise, for a stored target: the target's list becomes `WithInvite` of the payload (signature plus the sender's public data), and one 'invite' emit goes to the target's user room. An unknown target changes nothing. No other user's data changes. |
| `Signaling.Signal.RemoveInvite` | app/models/Signal.js:131-135 | only the session user's own pending list changes, to `WithoutInvite` of it; nothing is emitted |
| `Signaling.Signal.RequestOffers` | app/models/Signal.js:142-150 | appends one 'requestOffer' emit per listed name, in order, to that name's room, carrying this device |
| `Signaling.Signal.SendOffer` | app/models/Signal.js:158-162 | appends the offer pair with the named device as recipient and this device as initiator |
| `Signaling.Signal.SendOffers` | app/models/Signal.js:170-180 | appends exactly two 'offer' emits: the recipient's device room gets the initiator with `initiator: false`, then the initiator's device room gets the recipient with `initiator: true` |
| `Signaling.Signal.SendSignal` | app/models/Signal.js:189-198 | appends one 'signal' emit, to the addressed device's room, carrying the signal, the signature and this device as sender |
| `Signaling.InviteEmitsAt` | app/models/Signal.js:94-98 | the flush has one emit per invite; emit k carries invite k and goes to the given room |
| `Signaling.OfferRequestsAt` | app/models/Signal.js:144-149 | one request per listed name, duplicates included; request k goes to name k |
| `Signaling.OfferPairIsSymmetric` | app/models/Signal.js:170-180 | each side is told about the other, and exactly the second recipient initiates |
| `Signaling.DeviceRoomInjective` | app/models/Signal.js:47-49 | for usernames without '@', a device room determines the user and the device |
| `Signaling.UserRoomIsNoDeviceRoom` | app/models/Signal.js:67-71 | for a username without '@', the user room is never any device's room |
| `Signaling.DeviceRoomsCollide` | app/models/Signal.js:47-49 | without that restriction, user "a@b" on device "c" and user "a" on device "b@c" share one room |
| `AuthController.TokenEndpoint` | app/controllers/auth.js:12-23 | replies with 404 text or with the session token for the trimmed path name, unchanged |
| `AuthController.TokenEndpointTrims` | app/controllers/auth.js:13 | surrounding white space in the path name makes no difference to the reply |
| `AuthController.TokenEndpointReplies` | app/controllers/auth.js:15-22 | 404 'User not found' exactly for an unknown user; otherwise a session token naming the stored user, valid for 8 minutes |
| `AuthController.AuthEndpoint` | app/controllers/auth.js:29-50 | the reply is a failure message, a success with a token, or no reply |
| `AuthController.AuthUnknownUser` | app/controllers/auth.js:34-36 | an unknown user gets `{success: false, message: 'User not found'}` |
| `AuthController.AuthWrongFingerprint` | app/controllers/auth.js:37-39 | a stored fingerprint that differs gets 'Wrong fingerprint', with the same reply for every signature and every collaborator, so `authenticate` plays no part |
| `AuthController.AuthFollowsAuthenticate` | app/controllers/auth.js:41-48 | past lookup and fingerprint: a falsy `authenticate` gives 'Invalid signature', a token gives `{success: true, token}`, a rejection gives no reply |
| `AuthController.AuthInvalidSignature` | app/controllers/auth.js:41-45 | a stored user with the right fingerprint, a readable key and a JSON signed text is answered 'Invalid signature' when the signature is invalid, the payload names another user, or the request tag is missing |
| `AuthController.AuthSuccessNeedsAllChecks` | app/controllers/auth.js:32-48 | success only for a stored user, with the stored fingerprint, whose `authenticate` issued a token; that token passes `authToken` for the name |
| `AuthController.HandshakeSucceeds` | app/controllers/auth.js:12-48 | the full flow succeeds: fetch a session token, sign it with the tag under the user's key, and post within 8 minutes. The returned token then opens a connection for 24 hours. |
| `SocketAuth.Gate` | config/middlewares/socketAuth.js:12-28 | a rejection carries one of the two fixed messages |
| `SocketAuth.GateAcceptsExactly` | config/middlewares/socketAuth.js:15-27 | accepts exactly when all three parameters are given, and the token verifies with `loggedInAs` = the lower-cased name of a stored user |
| `SocketAuth.GateMissingParameter` | config/middlewares/socketAuth.js:15-18 | a missing or empty parameter is rejected with 'Username/token/deviceId is empty', with the same verdict for every directory, secret and time, so there is no lookup and no token check |
| `SocketAuth.GateIgnoresDeviceId` | config/middlewares/socketAuth.js:20 | any other non-empty device id gets the same verdict |
| `SocketAuth.GateRejectsBadToken` | config/middlewares/socketAuth.js:20-24 | a token that `authToken` refuses gets 'Authentication error' |
| `SocketAuth.GateRefusesSessionTokens` | config/middlewares/socketAuth.js:20-27 | a session token never opens a connection |

## Findings

| source | as written | input that shows it | evidently intended | confidence | as-written member | corrected member |
|---|---|---|---|---|---|---|
| app/models/Signal.js:107-118 | The self-invite check compares the raw target name with the sender's stored, lower-case name. The lookup lower-cases the name. The emit goes to the room of the raw name. | A session of user "alice" calls `sendInvite` with `username: "Alice"`. The check passes, `findByName` returns alice's own record, a self-invite is stored, and it is emitted to room "Alice", which no session joins. | Lower-case the target once, so the self check, the lookup and the room agree. A user never invites themselves, and the live emit reaches the target's devices. | medium, not executed | `Signaling.InviteRouteAsWritten`, `Signaling.SelfInviteAsWritten` | `Signaling.InviteRoute` (used by `Signaling.Signal.SendInvite`) |

## Left out

- Persistence is left out. The document store becomes `Directory.users`, and a save that succeeds takes effect at once. Database errors and the fingerprint unique index are not modelled. The username index is modelled by the map key.
- `findByFingerprint` and the users HTTP controller are left out. The controller is thin glue around `FindByName`, `GetPublicData` and `Register`.
- Stale documents are left out. A session holds its user document from connection time, and other connections save their own copies. Here every party shares one `User` object per stored user. So the lost updates of concurrent read-modify-write on `pendingInvites` are not captured, and neither is anything that happens after a disconnect.
- OpenPGP and JSON parsing are parameters with no assumed properties: key reading, cleartext parsing, signature validity and `JSON.parse`. JSON values that are not strings are modelled as absent fields. They compare unequal just as they do in the source.
- JWT is modelled without cryptography and without a wall clock. A signature is the identity of the secret that made it. `now` is an explicit count of seconds. Signing with an empty secret, which throws, is not modelled.
- The transport is left out: socket.io delivery, room membership ending on disconnect, the error and disconnect handlers (which only log), and the `config/socket.js` wiring. The wiring includes a user deleted between the gate and the session, for whom the session constructor throws.
- Express routing, body parsing, the server bootstrap, and logging are left out. A request body without a `username`, which throws before any reply, is not modelled.
- `Text.Lower`: lower-cases ASCII letters only. JavaScript's `toLowerCase` also maps non-ASCII letters, which are not modelled.
- `Signaling.Signal.SendInvite`: follows the corrected routing of the finding above, not the case-sensitive check as written. The as-written routing is `Signaling.InviteRouteAsWritten`.
