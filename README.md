# Browsercraft lobby, sessions and viewport — a Dafny model

This project models the server-side bookkeeping of the Browsercraft multiplayer
game. It also models two small pure helpers, and it proves properties of all of
them.

- **Lobby** (`lib/LobbyManager.js`, the lobby manager `server.js` loads). It keeps a
  player directory (socket id → username and status) and a room table
  (room name → member socket id → username, ready flag, owner flag). It can add
  and remove players, create, join and leave rooms, set the ready flag, and return
  the snapshot that is broadcast as `lobby-state`.
- **ServerLobby** (`server/LobbyManager.js`, the older draft). It keeps a pool of
  open players (socket id → socket) and rooms keyed by their owner's socket id.
  When the owner leaves, the room is disbanded and the owner and every member go
  back to the pool.
- **Sessions** (`server/SessionManager.js`). A token table (token → username,
  expiry time). It issues tokens with a 60 000 ms lifetime, looks them up with
  lazy and eager expiry, refreshes and revokes them.
- **Accounts** (`server/AccountManager.js`). The username and password checks, the
  registration insert, and the decision of whether a user is authenticated. The
  user collection is an abstract map and the password hash is an uninterpreted
  function.
- **ViewPort** (`public/js/game/ViewPort.js`). The translation between world and
  canvas coordinates that keeps the player at the canvas centre (400, 300). The
  canvas size comes from `shared/Constants.js`.

Each source file that updates state in place becomes a Dafny `class` whose fields
are `map`s. Each method's `ensures` ties the new fields to a pure step function of
the old fields (`AddPlayerStep`, `Lookup`, `LeaveRoomStep`, …). The properties the
source promises are then proved as lemmas about those step functions. Loops in the
source stay loops in the model:

- the duplicate-name scan of `addPlayer`;
- the membership sweep of `removePlayer`;
- the regeneration loop of `assignSessionToken`;
- the sweep of `clearExpiredSessions`;
- the re-admission loop in the older `leaveRoom`.

The wall clock is a `now: int` parameter (milliseconds). The random token
generator is a sequence of candidate tokens, tried in order.

The code differs from a design in which every room has one owner, every player is
in at most one room, and ownership passes on when the owner leaves. The model
follows the code:

- `createRoom` makes an empty room with no owner membership.
- `removePlayer` leaves emptied rooms in place.
- Nothing hands ownership on when an owner leaves.
- A player can be a member of several rooms at once.
- `leaveRoom` succeeds for a player who is not a member.
- After a disconnect, a later leave is refused as "You do not exist!", not as "not a member".

## Model

| member | source | states |
|---|---|---|
| `Lobby.LobbyManager.constructor` | lib/LobbyManager.js:18-32 | the directory and the room table start empty |
| `Lobby.LobbyManager.Snapshot` | lib/LobbyManager.js:206-211 | the broadcast payload is exactly the player directory and the room table |
| `Lobby.LobbyManager.AddPlayer` | lib/LobbyManager.js:58-75 | the scan loop refuses with AlreadyLoggedIn and no change iff some stored record holds the username; otherwise the player is stored under id with status in-lobby (replacing an earlier entry) and the reply carries the username |
| `Lobby.LobbyManager.RemovePlayer` | lib/LobbyManager.js:82-91 | the new state is the old one without id in the directory and without id in any room's member map |
| `Lobby.LobbyManager.CreateRoom` | lib/LobbyManager.js:98-109 | the new state and reply are those of the create-room step (refused if the name exists, else an empty room) |
| `Lobby.LobbyManager.JoinRoom` | lib/LobbyManager.js:118-141 | the new state and reply are those of the join step, checked player first then room |
| `Lobby.LobbyManager.LeaveRoom` | lib/LobbyManager.js:149-169 | the new state and reply are those of the leave step, which deletes a room left without members |
| `Lobby.LobbyManager.SetReadyStatus` | lib/LobbyManager.js:178-201 | the new state and reply are those of the ready step, checked player, room, then membership |
| `Lobby.RemovePlayerStep` | lib/LobbyManager.js:82-91 | afterwards id is in neither the directory nor any room, and the set of rooms is unchanged |
| `Lobby.AddPlayerAdmits` | lib/LobbyManager.js:67-74 | with the corrected comparison, an unheld username is stored as {username, status 0} under id, overwriting, with rooms unchanged and a reply carrying the username |
| `Lobby.AddPlayerAdmitsAsWritten` | lib/LobbyManager.js:59-74 | as written, any name other than "[object Object]" (and that name too while nobody is connected) is stored as {username, status 0} under id, overwriting, with rooms unchanged and a reply carrying the username, whether or not it is already held |
| `Lobby.AddPlayerRefusesTakenName` | lib/LobbyManager.js:59-66 | with the corrected comparison, a username held by any connected player is refused with AlreadyLoggedIn and the state is unchanged |
| `Lobby.AddPlayerKeepsUsernamesUnique` | lib/LobbyManager.js:58-75 | with the intended comparison, adding a player keeps every username held by at most one connection |
| `Lobby.SecondLoginRefused` | lib/LobbyManager.js:58-75 | with the corrected comparison, "alice" logs in on one connection; a second connection claiming "alice" is refused with "You are already logged in!" |
| `Lobby.DuplicateLoginAdmittedAsWritten` | lib/LobbyManager.js:59-60 | with the comparison as written, two connections both log in as "alice" and the directory holds the name twice |
| `Lobby.ClaimsUsernameAsWritten` | lib/LobbyManager.js:59-60 | as written, the test `record == username` holds iff the username is "[object Object]", whatever the record holds |
| `Lobby.AddPlayerAsWritten` | lib/LobbyManager.js:58-75 | as written, addPlayer refuses with no change iff the name is "[object Object]" and someone is connected; every other name is admitted under id |
| `Lobby.ObjectTextRefusedAsWritten` | lib/LobbyManager.js:59-60 | as written, the name "[object Object]" is refused whenever anyone is connected and changes nothing |
| `Lobby.RemovePlayerKeepsOthers` | lib/LobbyManager.js:82-91 | every other player and every other membership is unchanged, each room's member map is exactly the old one without id (nothing is added), and every room (even an emptied one) remains |
| `Lobby.RemovePlayerIdempotent` | lib/LobbyManager.js:82-91 | removing the same player twice equals removing it once |
| `Lobby.RemovePlayerKeepsEmptiedRoom` | lib/LobbyManager.js:86-90 | a room whose only member disconnects stays in the table with no members |
| `Lobby.CreateRoomRefusesTakenName` | lib/LobbyManager.js:99-104 | creating an existing room is refused with RoomTaken and nothing changes |
| `Lobby.CreateRoomAddsEmptyRoom` | lib/LobbyManager.js:105-108 | a new name gets an empty room with no owner; the directory and all other rooms are unchanged |
| `Lobby.CreateRoomIgnoresPlayers` | lib/LobbyManager.js:98-109 | the reply and the new room table do not depend on the player directory |
| `Lobby.JoinRoomRefusals` | lib/LobbyManager.js:120-140 | an unknown player is refused with "You do not exist!" whether or not the room exists; a known player and missing room gives "Room does not exist!"; neither changes the state |
| `Lobby.JoinRoomRecordsMember` | lib/LobbyManager.js:121-130 | success stores {directory username, not ready, isOwner} for the joiner in that room, overwriting, with every other room and the directory unchanged |
| `Lobby.PlayerInTwoRooms` | lib/LobbyManager.js:118-141 | joining does not look at other rooms: one player becomes a member of rooms "x" and "y" at once |
| `Lobby.LeaveRoomRefusals` | lib/LobbyManager.js:150-168 | an unknown player, then a missing room, is refused and nothing changes |
| `Lobby.LeaveRoomRemovesMember` | lib/LobbyManager.js:151-158 | with player and room present leaving succeeds even for a non-member, removes only the leaver's membership, and deletes the room exactly when no member remains |
| `Lobby.LeaveRoomTwiceAfterLastMember` | lib/LobbyManager.js:152-163 | the last member leaving deletes the room, so a second leave is refused with "Room does not exist!" |
| `Lobby.LeaveRoomIdempotent` | lib/LobbyManager.js:149-169 | leaving twice leaves the state of leaving once; after a successful leave the second reply is Ok while the room persists and "Room does not exist!" once it was deleted |
| `Lobby.SetReadyStatusRefusals` | lib/LobbyManager.js:179-200 | an unknown player, then a missing room, then a non-member is refused, each with no change |
| `Lobby.SetReadyStatusChangesOnlyFlag` | lib/LobbyManager.js:181-185 | success changes only the ready flag of that one membership; username, owner flag, other members, other rooms and the directory stay |
| `Lobby.ApplyKeepsConsistent` | lib/LobbyManager.js:58-201 | with the corrected comparison, every operation keeps memberships pointing at connected players and usernames unique |
| `Lobby.RunKeepsConsistent` | lib/LobbyManager.js:58-201 | with the corrected comparison, any sequence of operations applied one at a time keeps the lobby consistent |
| `Lobby.ReachableIsConsistent` | lib/LobbyManager.js:18-32 | with the corrected comparison, every state reachable from the empty lobby is consistent |
| `Lobby.ApplyAsWrittenKeepsMembersRegistered` | lib/LobbyManager.js:58-201 | as written, every operation keeps every room member a connected player |
| `Lobby.RunAsWrittenKeepsMembersRegistered` | lib/LobbyManager.js:58-201 | as written, any sequence of operations keeps every room member a connected player |
| `Lobby.RunAsWrittenBreaksUniqueness` | lib/LobbyManager.js:59-60 | as written, two "alice" logins from the empty lobby reach a state where a username is held twice |
| `Lobby.OwnerLeavingKeepsRoomWithoutOwner` | lib/LobbyManager.js:149-169 | alice (owner) and bob join "castle"; alice leaving leaves bob alone without an owner; bob leaving deletes the room |
| `Lobby.DisconnectCleansMemberships` | lib/LobbyManager.js:82-91 | a disconnected member has no membership left, and a later leave is refused with "You do not exist!" |
| `ServerLobby.LobbyManager.constructor` | server/LobbyManager.js:9-25 | the pool and the room table start empty |
| `ServerLobby.LobbyManager.Snapshot` | server/LobbyManager.js:9-25 | the state is exactly the pool and the room table |
| `ServerLobby.LobbyManager.AddPlayer` | server/LobbyManager.js:30-32 | the new state is the add step: the pool maps id to the socket |
| `ServerLobby.LobbyManager.RemovePlayer` | server/LobbyManager.js:34-38 | the new state and returned socket are those of the remove step |
| `ServerLobby.LobbyManager.CreateRoom` | server/LobbyManager.js:40-48 | the new state is the create step |
| `ServerLobby.LobbyManager.JoinRoom` | server/LobbyManager.js:50-56 | the new state is the intended join step (see Findings) |
| `ServerLobby.LobbyManager.LeaveRoom` | server/LobbyManager.js:58-71 | the re-admission loop yields the intended leave step (see Findings) |
| `ServerLobby.AddPlayerOverwrites` | server/LobbyManager.js:30-32 | only the pool entry for id changes, to the given socket |
| `ServerLobby.RemovePlayerIdempotent` | server/LobbyManager.js:34-38 | the stored socket is returned iff present; id is absent afterwards; a second removal returns nothing and changes nothing |
| `ServerLobby.CreateRoomMovesOwner` | server/LobbyManager.js:40-48 | an open player moves from the pool into a new room {owner: its socket, no members}; an id not in the pool changes nothing |
| `ServerLobby.JoinMissingRoomDropsPlayer` | server/LobbyManager.js:51-52 | joining a missing room still removes the joiner from the pool, leaving it in no structure |
| `ServerLobby.JoinExistingRoomAddsMember` | server/LobbyManager.js:50-56 | intended join: the joiner leaves the pool and becomes a member of the room with its socket |
| `ServerLobby.JoinRoomAsWritten` | server/LobbyManager.js:50-56 | as written, the joiner always leaves the pool, the rooms never change, and the handler throws iff the room exists and the joiner was in the pool |
| `ServerLobby.JoinExistingRoomLosesPlayerAsWritten` | server/LobbyManager.js:51-54 | as written, joining an existing room throws after the joiner left the pool, and the rooms are unchanged |
| `ServerLobby.MemberLeaveKeepsRoom` | server/LobbyManager.js:59-62 | a non-owner leaving is removed from the members only; the pool and the room's existence and owner are unchanged |
| `ServerLobby.OwnerLeaveDisbands` | server/LobbyManager.js:63-70 | the owner leaving deletes the room and puts the owner and every member back in the pool with their sockets; other pool entries stay |
| `ServerLobby.OwnerLeaveWithMemberThrowsAsWritten` | server/LobbyManager.js:64-67 | as written, an owner leaving a room that has a member throws and the owner is not returned to the pool |
| `ServerLobby.LeaveRoomAsWritten` | server/LobbyManager.js:58-71 | as written, leaving throws with no change iff the owner leaves a room that has a member; otherwise it ends in the intended leave step |
| `ServerLobby.LeaveAsWrittenAgreesWithoutMembers` | server/LobbyManager.js:58-71 | when the room has no members, the as-written and the intended leave agree |
| `ServerLobby.LeaveMissingRoomIsNoOp` | server/LobbyManager.js:59-63 | leaving under an owner id with no room changes nothing |
| `ServerLobby.CreateThenLeaveRestores` | server/LobbyManager.js:40-71 | creating a room and leaving it as owner restores the original pool and room table |
| `ServerLobby.AddPlayerKeepsSeparated` | server/LobbyManager.js:30-32 | adding a player who is in no room keeps every player in at most one place |
| `ServerLobby.CreateRoomKeepsSeparated` | server/LobbyManager.js:40-48 | creating a room keeps every player in at most one place (the pool or one room) |
| `ServerLobby.JoinRoomKeepsSeparated` | server/LobbyManager.js:50-56 | joining keeps every player in at most one place |
| `ServerLobby.LeaveRoomKeepsSeparated` | server/LobbyManager.js:58-71 | leaving, including disbanding, keeps every player in at most one place |
| `ServerLobby.RemovePlayerKeepsSeparated` | server/LobbyManager.js:34-38 | removing from the pool keeps every player in at most one place |
| `ServerLobby.AddRoomOwnerBreaksSeparation` | server/LobbyManager.js:30-32 | adding a room owner to the pool puts it in two places: addPlayer does not check |
| `Sessions.SessionManager.constructor` | server/SessionManager.js:10-15 | the token table starts empty |
| `Sessions.SessionManager.AssignSessionToken` | server/SessionManager.js:31-45 | the token is the first candidate not in the old table (so never in use); it maps to {username, now + 60000}; the table is then swept |
| `Sessions.SessionManager.LookupSession` | server/SessionManager.js:51-61 | the new table and answer are those of the lookup step |
| `Sessions.SessionManager.RefreshSessionTimeout` | server/SessionManager.js:67-75 | the new table is that of the refresh step |
| `Sessions.SessionManager.RemoveSessionToken` | server/SessionManager.js:81-83 | the token is removed, present or not |
| `Sessions.SessionManager.ClearExpiredSessions` | server/SessionManager.js:89-97 | the loop over the keys leaves exactly the swept table |
| `Sessions.ClearExpired` | server/SessionManager.js:89-97 | a token survives the sweep iff now is not past its expiry, and survivors keep their entry |
| `Sessions.FirstFresh` | server/SessionManager.js:32-38 | the regeneration loop stops at a candidate not in use, and every earlier candidate was in use |
| `Sessions.LookupAbsent` | server/SessionManager.js:52-53 | an unknown token answers null and changes nothing |
| `Sessions.LookupExpired` | server/SessionManager.js:54-57 | an expired token is removed (and only it) and the answer is null |
| `Sessions.LookupAtExpiry` | server/SessionManager.js:54-60 | expiry is strict: at now == expires the user is returned, the whole table is swept and the token kept |
| `Sessions.LookupLeavesNoExpired` | server/SessionManager.js:59-60 | after a successful lookup no expired session is stored |
| `Sessions.ClearExpiredIdempotent` | server/SessionManager.js:89-97 | sweeping twice at one time equals sweeping once |
| `Sessions.ClearExpiredLaterSubsumes` | server/SessionManager.js:89-97 | a sweep at a later time after an earlier one equals the later sweep alone |
| `Sessions.IssueThenLookup` | server/SessionManager.js:31-61 | a token issued at now answers its user for lookups up to now + 60000 and is gone from the table afterwards |
| `Sessions.IssueKeepsLiveSessions` | server/SessionManager.js:39-43 | issuing keeps every unexpired session of any other token unchanged |
| `Sessions.RefreshResetsExpiry` | server/SessionManager.js:67-75 | a present token gets expiry now + 60000 with the same user, even if already expired; all else unchanged |
| `Sessions.RefreshAbsent` | server/SessionManager.js:68-69 | refreshing an unknown token changes nothing |
| `Sessions.RefreshThenLookup` | server/SessionManager.js:67-75 | a refreshed token answers its user for lookups up to 60000 ms later |
| `Sessions.RevokeRemovesOnlyToken` | server/SessionManager.js:81-83 | revoking removes exactly that token, keeps all others, and is idempotent |
| `Sessions.RevokeThenLookup` | server/SessionManager.js:81-83 | a revoked token is unknown to every later lookup |
| `Sessions.SessionLifetimeExample` | server/SessionManager.js:17 | a token issued at 0 for "carol" answers "carol" at 59 s and is gone at 61 s |
| `Accounts.ContainsDisallowed` | server/AccountManager.js:33 | the regex search finds a character outside [a-zA-Z0-9] iff one exists |
| `Accounts.IsValidUsername` | server/AccountManager.js:32-34 | valid iff shorter than 24 characters and every character is in [a-zA-Z0-9] |
| `Accounts.EmptyUsernameIsValid` | server/AccountManager.js:33 | the empty username is accepted |
| `Accounts.LongUsernameIsInvalid` | server/AccountManager.js:33 | any username of 24 or more characters is rejected |
| `Accounts.DisallowedCharacterInvalidates` | server/AccountManager.js:33 | one character outside the class anywhere rejects the username |
| `Accounts.IsValidPassword` | server/AccountManager.js:36-38 | a password is valid iff it has at least 4 characters |
| `Accounts.PasswordLengthThreshold` | server/AccountManager.js:36-38 | the length threshold sits between 3 and 4: a 3-character password is rejected, a 4-character one accepted |
| `Accounts.RegisterUser` | server/AccountManager.js:57-63 | the insert fails iff the username exists; otherwise it adds exactly {username, hash(password)} and keeps all other users |
| `Accounts.IsUserAuthenticated` | server/AccountManager.js:78-81 | authenticated only when a document for the username exists, and then iff its stored password is hash(password) |
| `Accounts.AbsentUserNeverAuthenticated` | server/AccountManager.js:78-81 | with no document for the username the user is not authenticated |
| `Accounts.RegisterThenAuthenticate` | server/AccountManager.js:57-81 | after registering, an attempt authenticates iff its hash equals the registered password's hash |
| `Accounts.RegisterKeepsOtherUsers` | server/AccountManager.js:57-81 | registering one user does not change whether any other user authenticates |
| `ViewPort.ViewPort.constructor` | public/js/game/ViewPort.js:12-14 | the viewport starts with no centre |
| `ViewPort.ViewPort.Update` | public/js/game/ViewPort.js:30-32 | afterwards the centre is (x, y) and nothing else changes |
| `ViewPort.ViewPort.ToCanvasCoords` | public/js/game/ViewPort.js:42-47 | a result exists iff the centre has been set |
| `ViewPort.ViewPort.ToAbsoluteCoords` | public/js/game/ViewPort.js:54-59 | a result exists iff the centre has been set |
| `ViewPort.AbsoluteOfCanvas` | public/js/game/ViewPort.js:42-59 | converting to canvas then back to absolute coordinates is the identity |
| `ViewPort.CanvasOfAbsolute` | public/js/game/ViewPort.js:42-59 | converting to absolute then back to canvas coordinates is the identity |
| `ViewPort.SelfAtCanvasCentre` | public/js/game/ViewPort.js:43-46 | the player's own position is drawn at (400, 300), half of the 800 x 600 canvas |
| `ViewPort.ConversionsPreserveDifferences` | public/js/game/ViewPort.js:42-59 | both conversions are translations: differences of points are preserved |

## Findings

| source | as written | input that shows it | evidently intended | confidence | as-written member | corrected member |
|---|---|---|---|---|---|---|
| lib/LobbyManager.js:60 | `this.players[key] == username` compares the stored record object with the username string; JavaScript turns the object into "[object Object]", so the test fails for every real username | connection "a" logs in as "alice", then connection "b" logs in as "alice": both succeed | refuse when `this.players[key].username == username` | high, not executed | `Lobby.DuplicateLoginAdmittedAsWritten` | `Lobby.AddPlayerKeepsUsernamesUnique` |
| server/LobbyManager.js:54 | `room.members.push(playerSocket)` calls a method a HashMap does not have, so it throws a TypeError after the joiner was removed from the pool | an open player joins an existing room: it ends up in neither the pool nor the room | `room.members.set(joinerId, playerSocket)` | high, not executed | `ServerLobby.JoinExistingRoomLosesPlayerAsWritten` | `ServerLobby.JoinExistingRoomAddsMember` |
| server/LobbyManager.js:64-66 | inside the `forEach` callback `this` is not the lobby manager, so `this.addPlayer` throws at the first member (the `context` variable that was meant for this is unused) | the owner leaves a room with one member: it throws and nobody returns to the pool (the input is only reachable once joining works) | call `context.addPlayer` for every member, then re-add the owner and delete the room | medium, not executed | `ServerLobby.OwnerLeaveWithMemberThrowsAsWritten` | `ServerLobby.OwnerLeaveDisbands` |

The class methods `Lobby.LobbyManager.AddPlayer`, `ServerLobby.LobbyManager.JoinRoom`
and `ServerLobby.LobbyManager.LeaveRoom` implement the corrected behaviour. The
as-written behaviour is kept in `Lobby.AddPlayerAsWritten`,
`ServerLobby.JoinRoomAsWritten` and `ServerLobby.LeaveRoomAsWritten`.

## Left out

- Lobby.LobbyManager.AddPlayer: implements the corrected duplicate-name comparison; the comparison as written is `Lobby.ClaimsUsernameAsWritten` (see Findings).
- Lobby.AddPlayerAdmits, Lobby.AddPlayerRefusesTakenName, Lobby.SecondLoginRefused, Lobby.ApplyKeepsConsistent, Lobby.RunKeepsConsistent, Lobby.ReachableIsConsistent: state the corrected lobby. As written, usernames do not stay unique (`Lobby.RunAsWrittenBreaksUniqueness`); only the membership half of the invariant holds (`Lobby.RunAsWrittenKeepsMembersRegistered`).
- ServerLobby.LobbyManager.JoinRoom: adds the member instead of throwing a TypeError at line 54 (see Findings).
- ServerLobby.LobbyManager.LeaveRoom: re-admits the members instead of throwing a TypeError at line 66 (see Findings).
- Sessions.SessionManager.AssignSessionToken: uses one clock reading, while the source reads the clock again for the trailing sweep. It also requires that some candidate token is not in use; that is the termination assumption for the regeneration loop over a random generator.
- Sessions.SessionManager.LookupSession: uses one clock reading for the expiry test and the sweep. In the source the sweep reads the clock again (line 91). If the clock passes the token's expiry between the two readings, the sweep deletes the token and line 60 throws a TypeError on `undefined.username`. The model does not capture that race.
- Broadcasting (`sendState`'s `io.sockets.emit`), `printDebug`, and the `io` field are I/O. Only the snapshot payload is modelled.
- The `create` factory functions build nothing beyond the constructors. The older lobby's `create` returns `undefined`.
- The randomness and format of the generated token (`Util.generateUID`, `TOKEN_LENGTH`) are not modelled. The model only receives the sequence of tokens it produces.
- The MongoDB plumbing is not modelled: connect, the unique index of `init`, `findOne`, the callbacks, and `getUserGameStats`. A failed insert is modelled as "the username is already a key".
- `hash` (SHA-256, base64) is an uninterpreted function parameter. So "the plain password is never stored" cannot be stated beyond "the stored value is hash(password)".
- JavaScript object semantics are not modelled: truthiness of missing entries, and keys inherited from the prototype (`constructor`, `__proto__`). A lookup is map membership.
- The ready `status` and `isOwner` are `bool`. The source stores whatever value `status` holds and coerces `isOwner` with `!!`.
- The player status is never changed by the code, so only STATUS_IN_LOBBY (0) is used. STATUS_IN_ROOM and STATUS_IN_GAME are declared only.
- Coordinates are integers. The source uses JavaScript numbers, so fractional positions are not modelled. Calling a conversion before the first `update` gives NaN in the source and `None` here.
- Username length counts Dafny characters. JavaScript counts UTF-16 code units, which differ for characters outside the basic plane.
- `server.js` is not part of this model: routing, the session middleware, the Socket.IO handlers, and the 60 Hz loop. Handlers run one at a time, which `Lobby.Run` models as a sequence of operations.
- Ownership transfer, "at most one room per player", and rooms that always have a member are not in the code. They are not modelled; `Lobby.PlayerInTwoRooms`, `Lobby.CreateRoomAddsEmptyRoom` and `Lobby.OwnerLeavingKeepsRoomWithoutOwner` show what the code does instead.
