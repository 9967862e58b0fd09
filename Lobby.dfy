/**
 * The lobby manager the server loads: a player directory keyed by socket id
 * and a table of rooms keyed by room name (a room's name is its id), each room
 * mapping member socket ids to their membership record.
 */
module Lobby {
  import C = Constants

  datatype Player = Player(username: string, status: int)
  datatype Member = Member(username: string, ready: bool, isOwner: bool)

  type Room = map<string, Member>

  /** The lobby state, which is also the snapshot broadcast as 'lobby-state'. */
  datatype State = State(players: map<string, Player>, rooms: map<string, Room>)

  /** Why an operation was refused. */
  datatype Reason = AlreadyLoggedIn | RoomTaken | UnknownPlayer | UnknownRoom | NotAMember

  /** The result object of an operation: success (with the username for addPlayer) or a refusal. */
  datatype Reply = Ok | LoggedIn(username: string) | Refused(reason: Reason)

  /** The message text that accompanies each refusal. */
  function Message(reason: Reason, roomName: string): string {
    match reason
    case AlreadyLoggedIn => "You are already logged in!"
    case RoomTaken => "A room named " + roomName + " already exists!"
    case UnknownPlayer => "You do not exist!"
    case UnknownRoom => "Room does not exist!"
    case NotAMember => "You are not in a room!"
  }

  /** The new state together with the reply of one operation. */
  datatype Step = Step(state: State, reply: Reply)

  const Empty: State := State(map[], map[])

  // ---------------------------------------------------------------------------
  // The operations, as functions of the state

  /** The intended duplicate test: the stored record is held under the same username. */
  predicate ClaimsUsername(record: Player, username: string) {
    record.username == username
  }

  predicate UsernameTaken(players: map<string, Player>, username: string) {
    exists key :: key in players && ClaimsUsername(players[key], username)
  }

  /** Stores the player in the lobby under `id`, replacing any earlier entry for `id`. */
  function Admit(s: State, id: string, username: string): State {
    s.(players := s.players[id := Player(username, C.StatusInLobby)])
  }

  function AddPlayerStep(s: State, id: string, username: string): Step {
    if UsernameTaken(s.players, username) then Step(s, Refused(AlreadyLoggedIn))
    else Step(Admit(s, id, username), LoggedIn(username))
  }

  function RemovePlayerStep(s: State, id: string): (r: State)
    ensures id !in r.players
    ensures r.rooms.Keys == s.rooms.Keys
    ensures forall name :: name in r.rooms ==> id !in r.rooms[name]
  {
    State(s.players - {id}, map name | name in s.rooms :: s.rooms[name] - {id})
  }

  function CreateRoomStep(s: State, roomName: string): Step {
    if roomName in s.rooms then Step(s, Refused(RoomTaken))
    else Step(s.(rooms := s.rooms[roomName := map[]]), Ok)
  }

  function JoinRoomStep(s: State, roomName: string, joinerId: string, isOwner: bool): Step {
    if joinerId !in s.players then Step(s, Refused(UnknownPlayer))
    else if roomName !in s.rooms then Step(s, Refused(UnknownRoom))
    else
      var member := Member(s.players[joinerId].username, false, isOwner);
      Step(s.(rooms := s.rooms[roomName := s.rooms[roomName][joinerId := member]]), Ok)
  }

  function LeaveRoomStep(s: State, roomName: string, leaverId: string): Step {
    if leaverId !in s.players then Step(s, Refused(UnknownPlayer))
    else if roomName !in s.rooms then Step(s, Refused(UnknownRoom))
    else
      var room := s.rooms[roomName] - {leaverId};
      if |room| == 0 then Step(s.(rooms := s.rooms - {roomName}), Ok)
      else Step(s.(rooms := s.rooms[roomName := room]), Ok)
  }

  function SetReadyStatusStep(s: State, roomName: string, memberId: string, ready: bool): Step {
    if memberId !in s.players then Step(s, Refused(UnknownPlayer))
    else if roomName !in s.rooms then Step(s, Refused(UnknownRoom))
    else if memberId !in s.rooms[roomName] then Step(s, Refused(NotAMember))
    else
      var room := s.rooms[roomName];
      Step(s.(rooms := s.rooms[roomName := room[memberId := room[memberId].(ready := ready)]]), Ok)
  }

  // ---------------------------------------------------------------------------
  // The duplicate-login test as the source writes it

  /**
   * The text a JavaScript object becomes when compared with == to a string: the
   * comparison converts the record to a primitive, and a plain object's
   * toString gives this.
   */
  const ObjectText: string := "[object Object]"

  /** `record == username` with a stored record object on the left, as the source compares. */
  predicate ClaimsUsernameAsWritten(record: Player, username: string): (claims: bool)
    ensures claims <==> username == ObjectText
  {
    username == ObjectText
  }

  /**
   * addPlayer as written: the refusal fires exactly for the name "[object Object]"
   * while anyone is connected, whatever usernames are held; every other name is admitted.
   */
  function AddPlayerAsWritten(s: State, id: string, username: string): (r: Step)
    ensures r.reply.Refused? <==> username == ObjectText && s.players != map[]
    ensures r.reply.Refused? ==> r == Step(s, Refused(AlreadyLoggedIn))
    ensures !r.reply.Refused? ==> r == Step(Admit(s, id, username), LoggedIn(username))
  {
    var refused := exists key :: key in s.players && ClaimsUsernameAsWritten(s.players[key], username);
    assert refused <==> username == ObjectText && s.players != map[] by {
      if username == ObjectText && s.players != map[] {
        var key :| key in s.players;
        assert ClaimsUsernameAsWritten(s.players[key], username);
      }
    }
    if refused
    then Step(s, Refused(AlreadyLoggedIn))
    else Step(Admit(s, id, username), LoggedIn(username))
  }

  /**
   * As written, a second connection claiming a username that is already logged
   * in is admitted, and the directory then holds that username twice.
   */
  lemma DuplicateLoginAdmittedAsWritten()
    ensures var first := AddPlayerAsWritten(Empty, "a", "alice");
            var second := AddPlayerAsWritten(first.state, "b", "alice");
            second.reply == LoggedIn("alice") &&
            second.state.players["a"].username == second.state.players["b"].username
  {
    var first := AddPlayerAsWritten(Empty, "a", "alice");
    assert "alice" != ObjectText by { assert "alice"[0] != ObjectText[0]; }
    assert !ClaimsUsernameAsWritten(first.state.players["a"], "alice");
  }

  /** As written, the refusal fires for the name "[object Object]" whoever holds which names. */
  lemma ObjectTextRefusedAsWritten(s: State, id: string)
    requires s.players != map[]
    ensures AddPlayerAsWritten(s, id, ObjectText) == Step(s, Refused(AlreadyLoggedIn))
  {
    var key :| key in s.players;
    assert ClaimsUsernameAsWritten(s.players[key], ObjectText);
  }

  // ---------------------------------------------------------------------------
  // The object the server holds

  class LobbyManager {
    var players: map<string, Player>
    var rooms: map<string, Room>

    constructor ()
      ensures Snapshot() == Empty
    {
      players := map[];
      rooms := map[];
    }

    /** The payload sendState broadcasts: the whole player directory and room table. */
    function Snapshot(): (s: State)
      reads this
      ensures s.players == players && s.rooms == rooms
    {
      State(players, rooms)
    }

    /**
     * Admits a player under `id` unless some connected player already holds
     * `username` (the intended comparison of the stored username).
     */
    method AddPlayer(id: string, username: string) returns (reply: Reply)
      modifies this
      ensures Step(Snapshot(), reply) == AddPlayerStep(old(Snapshot()), id, username)
    {
      var keys := players.Keys;
      while keys != {}
        invariant keys <= players.Keys
        invariant players == old(players) && rooms == old(rooms)
        invariant forall key :: key in players && key !in keys ==> !ClaimsUsername(players[key], username)
        decreases keys
      {
        var key :| key in keys;
        if ClaimsUsername(players[key], username) {
          return Refused(AlreadyLoggedIn);
        }
        keys := keys - {key};
      }
      players := players[id := Player(username, C.StatusInLobby)];
      reply := LoggedIn(username);
    }

    /** Drops the player from the directory and from every room it belongs to. */
    method RemovePlayer(id: string)
      modifies this
      ensures Snapshot() == RemovePlayerStep(old(Snapshot()), id)
    {
      if id in players {
        players := players - {id};
      }
      var names := rooms.Keys;
      while names != {}
        invariant names <= rooms.Keys
        invariant rooms.Keys == old(rooms).Keys
        invariant players == old(players) - {id}
        invariant forall n :: n in rooms ==>
                    rooms[n] == if n in names then old(rooms)[n] else old(rooms)[n] - {id}
        decreases names
      {
        var n :| n in names;
        if id in rooms[n] {
          rooms := rooms[n := rooms[n] - {id}];
        }
        names := names - {n};
      }
      assert rooms == (map n | n in old(rooms) :: old(rooms)[n] - {id});
    }

    /** Creates an empty room named `roomName` unless one exists. */
    method CreateRoom(roomName: string) returns (reply: Reply)
      modifies this
      ensures Step(Snapshot(), reply) == CreateRoomStep(old(Snapshot()), roomName)
    {
      if roomName in rooms {
        return Refused(RoomTaken);
      }
      rooms := rooms[roomName := map[]];
      reply := Ok;
    }

    /** Records the player as a not-ready member of the room. */
    method JoinRoom(roomName: string, joinerId: string, isOwner: bool) returns (reply: Reply)
      modifies this
      ensures Step(Snapshot(), reply) == JoinRoomStep(old(Snapshot()), roomName, joinerId, isOwner)
    {
      if joinerId in players {
        if roomName in rooms {
          var player := players[joinerId];
          rooms := rooms[roomName := rooms[roomName][joinerId := Member(player.username, false, isOwner)]];
          return Ok;
        }
        return Refused(UnknownRoom);
      }
      return Refused(UnknownPlayer);
    }

    /** Removes the player's membership, deleting the room once it has no members. */
    method LeaveRoom(roomName: string, leaverId: string) returns (reply: Reply)
      modifies this
      ensures Step(Snapshot(), reply) == LeaveRoomStep(old(Snapshot()), roomName, leaverId)
    {
      if leaverId in players {
        if roomName in rooms {
          rooms := rooms[roomName := rooms[roomName] - {leaverId}];
          if |rooms[roomName]| == 0 {
            rooms := rooms - {roomName};
          }
          return Ok;
        }
        return Refused(UnknownRoom);
      }
      return Refused(UnknownPlayer);
    }

    /** Sets the ready flag of the player's membership in the room. */
    method SetReadyStatus(roomName: string, memberId: string, ready: bool) returns (reply: Reply)
      modifies this
      ensures Step(Snapshot(), reply) == SetReadyStatusStep(old(Snapshot()), roomName, memberId, ready)
    {
      if memberId in players {
        if roomName in rooms {
          if memberId in rooms[roomName] {
            var room := rooms[roomName];
            rooms := rooms[roomName := room[memberId := room[memberId].(ready := ready)]];
            return Ok;
          }
          return Refused(NotAMember);
        }
        return Refused(UnknownRoom);
      }
      return Refused(UnknownPlayer);
    }
  }

  // ---------------------------------------------------------------------------
  // Properties of single operations

  /**
   * A fresh username is stored with status "in lobby" under `id`, replacing any
   * earlier entry for `id`; the reply carries the username and rooms are untouched.
   */
  lemma AddPlayerAdmits(s: State, id: string, username: string)
    requires !UsernameTaken(s.players, username)
    ensures var step := AddPlayerStep(s, id, username);
            step.reply == LoggedIn(username) &&
            step.state.players == s.players[id := Player(username, C.StatusInLobby)] &&
            step.state.rooms == s.rooms
  {
  }

  /**
   * As written, the admit branch runs for every name but "[object Object]", and
   * for that one too while nobody is connected, whichever usernames are held.
   */
  lemma AddPlayerAdmitsAsWritten(s: State, id: string, username: string)
    requires username != ObjectText || s.players == map[]
    ensures var step := AddPlayerAsWritten(s, id, username);
            step.reply == LoggedIn(username) &&
            step.state.players == s.players[id := Player(username, C.StatusInLobby)] &&
            step.state.rooms == s.rooms
  {
  }

  /** A username already held by a connected player is refused and nothing changes. */
  lemma AddPlayerRefusesTakenName(s: State, id: string, username: string, holder: string)
    requires holder in s.players && s.players[holder].username == username
    ensures AddPlayerStep(s, id, username) == Step(s, Refused(AlreadyLoggedIn))
  {
    assert ClaimsUsername(s.players[holder], username);
  }

  /** No two connected players share a username. */
  ghost predicate UniqueUsernames(players: map<string, Player>) {
    forall a, b :: a in players && b in players && players[a].username == players[b].username ==> a == b
  }

  lemma AddPlayerKeepsUsernamesUnique(s: State, id: string, username: string)
    requires UniqueUsernames(s.players)
    ensures UniqueUsernames(AddPlayerStep(s, id, username).state.players)
  {
    if !UsernameTaken(s.players, username) {
      var players := AddPlayerStep(s, id, username).state.players;
      forall a, b | a in players && b in players && players[a].username == players[b].username
        ensures a == b
      {
        if a != id && b != id {
          assert players[a] == s.players[a] && players[b] == s.players[b];
        }
      }
    }
  }

  /** Two connections claiming "alice": the first is admitted, the second refused. */
  lemma SecondLoginRefused()
    ensures var first := AddPlayerStep(Empty, "a", "alice");
            var second := AddPlayerStep(first.state, "b", "alice");
            first.reply == LoggedIn("alice") &&
            second.reply == Refused(AlreadyLoggedIn) &&
            Message(second.reply.reason, "") == "You are already logged in!"
  {
    var first := AddPlayerStep(Empty, "a", "alice");
    AddPlayerRefusesTakenName(first.state, "b", "alice", "a");
  }

  /**
   * Removing a player leaves every other player and every other membership as
   * it was, and keeps every room, even one it leaves empty.
   */
  lemma RemovePlayerKeepsOthers(s: State, id: string)
    ensures var r := RemovePlayerStep(s, id);
            r.players == s.players - {id} &&
            r.rooms.Keys == s.rooms.Keys &&
            (forall name, m :: name in s.rooms && m in s.rooms[name] && m != id ==>
               m in r.rooms[name] && r.rooms[name][m] == s.rooms[name][m]) &&
            forall name :: name in s.rooms ==> r.rooms[name] == s.rooms[name] - {id}
  {
  }

  lemma RemovePlayerIdempotent(s: State, id: string)
    ensures RemovePlayerStep(RemovePlayerStep(s, id), id) == RemovePlayerStep(s, id)
  {
    var once := RemovePlayerStep(s, id);
    var twice := RemovePlayerStep(once, id);
    assert twice.players == once.players;
    forall name | name in once.rooms ensures twice.rooms[name] == once.rooms[name] {
      assert id !in once.rooms[name];
    }
    assert twice.rooms == once.rooms;
  }

  /** A room whose only member disconnects stays in the table, empty. */
  lemma RemovePlayerKeepsEmptiedRoom(s: State, roomName: string, id: string)
    requires roomName in s.rooms && s.rooms[roomName].Keys == {id}
    ensures var r := RemovePlayerStep(s, id);
            roomName in r.rooms && r.rooms[roomName] == map[]
  {
  }

  /** Creating a room under a taken name is refused and changes nothing. */
  lemma CreateRoomRefusesTakenName(s: State, roomName: string)
    requires roomName in s.rooms
    ensures CreateRoomStep(s, roomName) == Step(s, Refused(RoomTaken))
  {
  }

  /**
   * Creating a room under a new name adds it with no members (so with no owner)
   * and changes nothing else.
   */
  lemma CreateRoomAddsEmptyRoom(s: State, roomName: string)
    requires roomName !in s.rooms
    ensures var step := CreateRoomStep(s, roomName);
            step.reply == Ok && step.state.players == s.players &&
            step.state.rooms == s.rooms[roomName := map[]] &&
            !exists m :: m in step.state.rooms[roomName] && step.state.rooms[roomName][m].isOwner
  {
  }

  /** Room creation does not look at the player directory. */
  lemma CreateRoomIgnoresPlayers(s: State, players: map<string, Player>, roomName: string)
    ensures CreateRoomStep(s.(players := players), roomName).reply == CreateRoomStep(s, roomName).reply
    ensures CreateRoomStep(s.(players := players), roomName).state.rooms == CreateRoomStep(s, roomName).state.rooms
  {
  }

  /**
   * The joiner is checked before the room, and a refused join changes nothing:
   * an unknown player is refused whether or not the room exists.
   */
  lemma JoinRoomRefusals(s: State, roomName: string, joinerId: string, isOwner: bool)
    ensures joinerId !in s.players ==>
              JoinRoomStep(s, roomName, joinerId, isOwner) == Step(s, Refused(UnknownPlayer))
    ensures joinerId in s.players && roomName !in s.rooms ==>
              JoinRoomStep(s, roomName, joinerId, isOwner) == Step(s, Refused(UnknownRoom))
  {
  }

  /**
   * A successful join records a not-ready membership with the joiner's
   * username and owner flag, replacing any earlier membership in that room;
   * all other rooms and the directory are unchanged.
   */
  lemma JoinRoomRecordsMember(s: State, roomName: string, joinerId: string, isOwner: bool)
    requires joinerId in s.players && roomName in s.rooms
    ensures var step := JoinRoomStep(s, roomName, joinerId, isOwner);
            step.reply == Ok && step.state.players == s.players &&
            step.state.rooms.Keys == s.rooms.Keys &&
            step.state.rooms[roomName] ==
              s.rooms[roomName][joinerId := Member(s.players[joinerId].username, false, isOwner)] &&
            forall other :: other in s.rooms && other != roomName ==> step.state.rooms[other] == s.rooms[other]
  {
  }

  /** Joining does not consult other rooms: one player can be a member of two rooms at once. */
  lemma PlayerInTwoRooms()
    ensures var s0 := AddPlayerStep(Empty, "p", "pat").state;
            var s1 := CreateRoomStep(CreateRoomStep(s0, "x").state, "y").state;
            var s2 := JoinRoomStep(JoinRoomStep(s1, "x", "p", false).state, "y", "p", false);
            s2.reply == Ok && "p" in s2.state.rooms["x"] && "p" in s2.state.rooms["y"]
  {
    var s0 := AddPlayerStep(Empty, "p", "pat").state;
    assert !UsernameTaken(Empty.players, "pat");
    var s1 := CreateRoomStep(CreateRoomStep(s0, "x").state, "y").state;
    assert "x" != "y" by { assert "x"[0] != "y"[0]; }
    assert s1.rooms.Keys == {"x", "y"};
  }

  lemma LeaveRoomRefusals(s: State, roomName: string, leaverId: string)
    ensures leaverId !in s.players ==>
              LeaveRoomStep(s, roomName, leaverId) == Step(s, Refused(UnknownPlayer))
    ensures leaverId in s.players && roomName !in s.rooms ==>
              LeaveRoomStep(s, roomName, leaverId) == Step(s, Refused(UnknownRoom))
  {
  }

  /**
   * With the player and the room present, leaving succeeds whether or not the
   * leaver was a member; it removes only the leaver's membership, and the room
   * is deleted exactly when no member is left.
   */
  lemma LeaveRoomRemovesMember(s: State, roomName: string, leaverId: string)
    requires leaverId in s.players && roomName in s.rooms
    ensures var step := LeaveRoomStep(s, roomName, leaverId);
            step.reply == Ok && step.state.players == s.players &&
            (roomName in step.state.rooms <==> s.rooms[roomName].Keys - {leaverId} != {}) &&
            (roomName in step.state.rooms ==> step.state.rooms[roomName] == s.rooms[roomName] - {leaverId}) &&
            step.state.rooms - {roomName} == s.rooms - {roomName}
  {
    var room := s.rooms[roomName] - {leaverId};
    assert room.Keys == s.rooms[roomName].Keys - {leaverId};
    if room.Keys == {} {
      assert |room| == 0;
    } else {
      var m :| m in room.Keys;
      assert |room| != 0;
    }
  }

  /** Once the last member has left, the room is gone and a second leave is refused. */
  lemma LeaveRoomTwiceAfterLastMember(s: State, roomName: string, leaverId: string)
    requires leaverId in s.players && roomName in s.rooms && s.rooms[roomName].Keys <= {leaverId}
    ensures var first := LeaveRoomStep(s, roomName, leaverId);
            first.reply == Ok && roomName !in first.state.rooms &&
            LeaveRoomStep(first.state, roomName, leaverId) == Step(first.state, Refused(UnknownRoom)) &&
            Message(UnknownRoom, roomName) == "Room does not exist!"
  {
    LeaveRoomRemovesMember(s, roomName, leaverId);
  }

  /**
   * Leaving twice has the effect on the state of leaving once. The second reply
   * is Ok while the room persists and "Room does not exist!" once it was deleted.
   */
  lemma LeaveRoomIdempotent(s: State, roomName: string, leaverId: string)
    ensures var first := LeaveRoomStep(s, roomName, leaverId);
            var second := LeaveRoomStep(first.state, roomName, leaverId);
            second.state == first.state &&
            (first.reply == Ok ==>
               (roomName in first.state.rooms ==> second.reply == Ok) &&
               (roomName !in first.state.rooms ==> second.reply == Refused(UnknownRoom)))
  {
    if leaverId in s.players && roomName in s.rooms {
      var room := s.rooms[roomName] - {leaverId};
      if |room| != 0 {
        assert room - {leaverId} == room;
      }
    }
  }

  /** The checks of setReadyStatus come in this order: player, room, membership; a refusal changes nothing. */
  lemma SetReadyStatusRefusals(s: State, roomName: string, memberId: string, ready: bool)
    ensures memberId !in s.players ==>
              SetReadyStatusStep(s, roomName, memberId, ready) == Step(s, Refused(UnknownPlayer))
    ensures memberId in s.players && roomName !in s.rooms ==>
              SetReadyStatusStep(s, roomName, memberId, ready) == Step(s, Refused(UnknownRoom))
    ensures memberId in s.players && roomName in s.rooms && memberId !in s.rooms[roomName] ==>
              SetReadyStatusStep(s, roomName, memberId, ready) == Step(s, Refused(NotAMember))
  {
  }

  /** A successful ready toggle changes the ready flag of that one membership and nothing else. */
  lemma SetReadyStatusChangesOnlyFlag(s: State, roomName: string, memberId: string, ready: bool)
    requires memberId in s.players && roomName in s.rooms && memberId in s.rooms[roomName]
    ensures var step := SetReadyStatusStep(s, roomName, memberId, ready);
            var old_member := s.rooms[roomName][memberId];
            step.reply == Ok && step.state.players == s.players &&
            step.state.rooms.Keys == s.rooms.Keys &&
            step.state.rooms[roomName].Keys == s.rooms[roomName].Keys &&
            step.state.rooms[roomName][memberId] == Member(old_member.username, ready, old_member.isOwner) &&
            (forall m :: m in s.rooms[roomName] && m != memberId ==>
               step.state.rooms[roomName][m] == s.rooms[roomName][m]) &&
            forall other :: other in s.rooms && other != roomName ==> step.state.rooms[other] == s.rooms[other]
  {
  }

  // ---------------------------------------------------------------------------
  // Event sequences: the server applies one handler at a time

  datatype Event =
    | Connect(id: string, username: string)
    | Disconnect(id: string)
    | Create(roomName: string)
    | Join(roomName: string, id: string, isOwner: bool)
    | Leave(roomName: string, id: string)
    | Ready(roomName: string, id: string, ready: bool)

  function Apply(s: State, e: Event): State {
    match e
    case Connect(id, username) => AddPlayerStep(s, id, username).state
    case Disconnect(id) => RemovePlayerStep(s, id)
    case Create(roomName) => CreateRoomStep(s, roomName).state
    case Join(roomName, id, isOwner) => JoinRoomStep(s, roomName, id, isOwner).state
    case Leave(roomName, id) => LeaveRoomStep(s, roomName, id).state
    case Ready(roomName, id, ready) => SetReadyStatusStep(s, roomName, id, ready).state
  }

  /** The state after handling the events in order. */
  function Run(s: State, events: seq<Event>): State
    decreases |events|
  {
    if events == [] then s else Run(Apply(s, events[0]), events[1..])
  }

  /** Every member of every room is a connected player: no membership dangles. */
  ghost predicate MembersRegistered(s: State) {
    forall name, id :: name in s.rooms && id in s.rooms[name] ==> id in s.players
  }

  /** The lobby invariant: no dangling membership and no username held twice. */
  ghost predicate Consistent(s: State) {
    MembersRegistered(s) && UniqueUsernames(s.players)
  }

  lemma ApplyKeepsConsistent(s: State, e: Event)
    requires Consistent(s)
    ensures Consistent(Apply(s, e))
  {
    match e
    case Connect(id, username) =>
      AddPlayerKeepsUsernamesUnique(s, id, username);
    case Disconnect(id) =>
      var r := RemovePlayerStep(s, id);
      forall name, m | name in r.rooms && m in r.rooms[name] ensures m in r.players {
        assert m in s.rooms[name] && m != id;
      }
    case Create(roomName) =>
    case Join(roomName, id, isOwner) =>
    case Leave(roomName, id) =>
    case Ready(roomName, id, ready) =>
  }

  /** Any sequence of events keeps the lobby consistent. */
  lemma {:induction false} RunKeepsConsistent(s: State, events: seq<Event>)
    requires Consistent(s)
    ensures Consistent(Run(s, events))
    decreases |events|
  {
    if events != [] {
      ApplyKeepsConsistent(s, events[0]);
      RunKeepsConsistent(Apply(s, events[0]), events[1..]);
    }
  }

  /** Starting from the empty lobby, every reachable state is consistent. */
  lemma ReachableIsConsistent(events: seq<Event>)
    ensures Consistent(Run(Empty, events))
  {
    RunKeepsConsistent(Empty, events);
  }

  // ---------------------------------------------------------------------------
  // Event sequences with the duplicate-login test as written

  /** One event with addPlayer as written; every other handler is the same. */
  function ApplyAsWritten(s: State, e: Event): State {
    match e
    case Connect(id, username) => AddPlayerAsWritten(s, id, username).state
    case _ => Apply(s, e)
  }

  function RunAsWritten(s: State, events: seq<Event>): State
    decreases |events|
  {
    if events == [] then s else RunAsWritten(ApplyAsWritten(s, events[0]), events[1..])
  }

  /** As written, no operation leaves a membership pointing at a player who is not connected. */
  lemma ApplyAsWrittenKeepsMembersRegistered(s: State, e: Event)
    requires MembersRegistered(s)
    ensures MembersRegistered(ApplyAsWritten(s, e))
  {
    match e
    case Connect(id, username) =>
    case Disconnect(id) =>
      var r := RemovePlayerStep(s, id);
      forall name, m | name in r.rooms && m in r.rooms[name] ensures m in r.players {
        assert m in s.rooms[name] && m != id;
      }
    case Create(roomName) =>
    case Join(roomName, id, isOwner) =>
    case Leave(roomName, id) =>
    case Ready(roomName, id, ready) =>
  }

  /** As written, any sequence of events keeps every membership registered. */
  lemma {:induction false} RunAsWrittenKeepsMembersRegistered(s: State, events: seq<Event>)
    requires MembersRegistered(s)
    ensures MembersRegistered(RunAsWritten(s, events))
    decreases |events|
  {
    if events != [] {
      ApplyAsWrittenKeepsMembersRegistered(s, events[0]);
      RunAsWrittenKeepsMembersRegistered(ApplyAsWritten(s, events[0]), events[1..]);
    }
  }

  /**
   * As written, uniqueness of usernames is not kept: two connections of
   * "alice" from the empty lobby reach a state that is not consistent.
   */
  lemma RunAsWrittenBreaksUniqueness()
    ensures !UniqueUsernames(RunAsWritten(Empty, [Connect("a", "alice"), Connect("b", "alice")]).players)
  {
    var events := [Connect("a", "alice"), Connect("b", "alice")];
    var first := AddPlayerAsWritten(Empty, "a", "alice");
    var second := AddPlayerAsWritten(first.state, "b", "alice");
    DuplicateLoginAdmittedAsWritten();
    assert events[1..][1..] == [];
    assert RunAsWritten(Empty, events) == second.state;
    assert "a" != "b" by { assert "a"[0] != "b"[0]; }
  }

  /**
   * The owner leaving does not hand ownership on: "alice" creates and joins
   * "castle" as owner, "bob" joins; after "alice" leaves the room persists with
   * "bob" as its only member and no owner; after "bob" leaves it is gone.
   */
  lemma OwnerLeavingKeepsRoomWithoutOwner()
    ensures var s0 := AddPlayerStep(AddPlayerStep(Empty, "a", "alice").state, "b", "bob").state;
            var s1 := CreateRoomStep(s0, "castle").state;
            var s2 := JoinRoomStep(JoinRoomStep(s1, "castle", "a", true).state, "castle", "b", false).state;
            var s3 := LeaveRoomStep(s2, "castle", "a").state;
            var s4 := LeaveRoomStep(s3, "castle", "b").state;
            |s2.rooms["castle"]| == 2 &&
            "castle" in s3.rooms && s3.rooms["castle"] == map["b" := Member("bob", false, false)] &&
            "castle" !in s4.rooms
  {
    var s00 := AddPlayerStep(Empty, "a", "alice").state;
    assert !UsernameTaken(Empty.players, "alice");
    assert "bob" != "alice" by { assert "bob"[0] != "alice"[0]; }
    assert !UsernameTaken(s00.players, "bob");
    var s0 := AddPlayerStep(s00, "b", "bob").state;
    assert "a" != "b" by { assert "a"[0] != "b"[0]; }
    assert s0.players.Keys == {"a", "b"};
    var s1 := CreateRoomStep(s0, "castle").state;
    var s2 := JoinRoomStep(JoinRoomStep(s1, "castle", "a", true).state, "castle", "b", false).state;
    assert s2.rooms["castle"] == map["a" := Member("alice", false, true), "b" := Member("bob", false, false)];
    assert s2.rooms["castle"].Keys == {"a", "b"};
    var s3 := LeaveRoomStep(s2, "castle", "a").state;
    assert s2.rooms["castle"] - {"a"} == map["b" := Member("bob", false, false)];
    var s4 := LeaveRoomStep(s3, "castle", "b").state;
    assert s3.rooms["castle"] - {"b"} == map[];
  }

  /**
   * A member that disconnects without leaving loses every membership; a later
   * leave from that connection id is refused as an unknown player.
   */
  lemma DisconnectCleansMemberships(s: State, roomName: string, id: string)
    requires roomName in s.rooms && id in s.rooms[roomName]
    ensures var r := RemovePlayerStep(s, id);
            id !in r.rooms[roomName] &&
            LeaveRoomStep(r, roomName, id) == Step(r, Refused(UnknownPlayer)) &&
            Message(UnknownPlayer, roomName) == "You do not exist!"
  {
  }
}
