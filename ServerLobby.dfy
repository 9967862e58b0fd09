/**
 * The older lobby draft: a pool of open players (socket id to socket) and a
 * table of active rooms keyed by the owner's socket id, each holding the
 * owner's socket and a map of member socket ids to sockets. Sockets are
 * opaque values of the type parameter S.
 */
module ServerLobby {
  import opened Wrappers

  datatype Room<S> = Room(owner: S, members: map<string, S>)

  datatype State<S> = State(openPlayers: map<string, S>, activeRooms: map<string, Room<S>>)

  /** How a handler ended: normally, or by a TypeError thrown partway through. */
  datatype Outcome = Completed | ThrewTypeError

  // ---------------------------------------------------------------------------
  // The operations, as functions of the state

  function AddPlayerStep<S>(s: State<S>, id: string, socket: S): State<S> {
    s.(openPlayers := s.openPlayers[id := socket])
  }

  /** Takes the player out of the pool, answering its socket if it was there. */
  function RemovePlayerStep<S>(s: State<S>, id: string): (State<S>, Option<S>) {
    (s.(openPlayers := s.openPlayers - {id}),
     if id in s.openPlayers then Some(s.openPlayers[id]) else None)
  }

  function CreateRoomStep<S>(s: State<S>, id: string): State<S> {
    var (s', socket) := RemovePlayerStep(s, id);
    match socket
    case None => s'
    case Some(ownerSocket) => s'.(activeRooms := s'.activeRooms[id := Room(ownerSocket, map[])])
  }

  /** Joining as intended: the joiner leaves the pool and, if the room exists, becomes a member. */
  function JoinRoomStep<S>(s: State<S>, joinerId: string, roomOwnerId: string): State<S> {
    var (s', socket) := RemovePlayerStep(s, joinerId);
    if roomOwnerId in s'.activeRooms && socket.Some? then
      var room := s'.activeRooms[roomOwnerId];
      s'.(activeRooms := s'.activeRooms[roomOwnerId := room.(members := room.members[joinerId := socket.value])])
    else s'
  }

  /** The state after every member and then the owner are put back in the pool and the room is deleted. */
  function Disband<S>(s: State<S>, roomOwnerId: string): State<S>
    requires roomOwnerId in s.activeRooms
  {
    var room := s.activeRooms[roomOwnerId];
    State((s.openPlayers + room.members)[roomOwnerId := room.owner], s.activeRooms - {roomOwnerId})
  }

  /**
   * Leaving as intended: a member leaving drops out of the room only; the owner
   * leaving disbands the room and returns owner and members to the pool.
   */
  function LeaveRoomStep<S>(s: State<S>, leaverId: string, roomOwnerId: string): State<S> {
    if roomOwnerId !in s.activeRooms then s
    else if roomOwnerId != leaverId then
      var room := s.activeRooms[roomOwnerId];
      s.(activeRooms := s.activeRooms[roomOwnerId := room.(members := room.members - {leaverId})])
    else Disband(s, roomOwnerId)
  }

  // ---------------------------------------------------------------------------
  // The two handlers as the source writes them

  /**
   * joinRoom as written calls push on the members HashMap, which has no such
   * method: with the room and the joiner's socket present it throws after the
   * joiner has already left the pool.
   */
  function JoinRoomAsWritten<S>(s: State<S>, joinerId: string, roomOwnerId: string): (r: (State<S>, Outcome))
    ensures r.1 == ThrewTypeError <==> roomOwnerId in s.activeRooms && joinerId in s.openPlayers
    ensures r.0.openPlayers == s.openPlayers - {joinerId}
    ensures r.0.activeRooms == s.activeRooms
  {
    var (s', socket) := RemovePlayerStep(s, joinerId);
    if roomOwnerId in s'.activeRooms && socket.Some? then (s', ThrewTypeError)
    else (s', Completed)
  }

  /**
   * leaveRoom as written calls this.addPlayer inside the forEach callback, where
   * `this` is not the lobby manager: the owner leaving a room with at least one
   * member throws at the first member, before anything has changed.
   */
  function LeaveRoomAsWritten<S>(s: State<S>, leaverId: string, roomOwnerId: string): (r: (State<S>, Outcome))
    ensures r.1 == ThrewTypeError ==> r.0 == s && roomOwnerId == leaverId
    ensures r.1 == ThrewTypeError <==>
              roomOwnerId in s.activeRooms && roomOwnerId == leaverId && s.activeRooms[roomOwnerId].members != map[]
    ensures r.1 == Completed ==> r.0 == LeaveRoomStep(s, leaverId, roomOwnerId)
  {
    if roomOwnerId in s.activeRooms && roomOwnerId == leaverId && s.activeRooms[roomOwnerId].members != map[]
    then (s, ThrewTypeError)
    else (LeaveRoomStep(s, leaverId, roomOwnerId), Completed)
  }

  /** As written, a player who joins an existing room ends up in no structure at all. */
  lemma JoinExistingRoomLosesPlayerAsWritten<S>(s: State<S>, joinerId: string, roomOwnerId: string)
    requires joinerId in s.openPlayers && roomOwnerId in s.activeRooms && joinerId != roomOwnerId
    ensures var (s', outcome) := JoinRoomAsWritten(s, joinerId, roomOwnerId);
            outcome == ThrewTypeError && joinerId !in s'.openPlayers &&
            s'.activeRooms == s.activeRooms
  {
  }

  /** As written, an owner leaving a room that has a member throws and nothing is returned to the pool. */
  lemma OwnerLeaveWithMemberThrowsAsWritten<S>(s: State<S>, roomOwnerId: string, memberId: string)
    requires roomOwnerId in s.activeRooms && memberId in s.activeRooms[roomOwnerId].members
    requires roomOwnerId !in s.openPlayers
    ensures var (s', outcome) := LeaveRoomAsWritten(s, roomOwnerId, roomOwnerId);
            outcome == ThrewTypeError && roomOwnerId !in s'.openPlayers
  {
  }

  /** When the room has no members, leaving as written agrees with leaving as intended. */
  lemma LeaveAsWrittenAgreesWithoutMembers<S>(s: State<S>, leaverId: string, roomOwnerId: string)
    requires roomOwnerId in s.activeRooms ==> s.activeRooms[roomOwnerId].members == map[]
    ensures LeaveRoomAsWritten(s, leaverId, roomOwnerId) == (LeaveRoomStep(s, leaverId, roomOwnerId), Completed)
  {
  }

  // ---------------------------------------------------------------------------
  // The object that holds the pool and the rooms

  class LobbyManager<S> {
    var openPlayers: map<string, S>
    var activeRooms: map<string, Room<S>>

    constructor ()
      ensures Snapshot() == State(map[], map[])
    {
      openPlayers := map[];
      activeRooms := map[];
    }

    function Snapshot(): (s: State<S>)
      reads this
      ensures s.openPlayers == openPlayers && s.activeRooms == activeRooms
    {
      State(openPlayers, activeRooms)
    }

    /** Puts the player's socket in the open pool, replacing any earlier one. */
    method AddPlayer(id: string, socket: S)
      modifies this
      ensures Snapshot() == AddPlayerStep(old(Snapshot()), id, socket)
    {
      openPlayers := openPlayers[id := socket];
    }

    /** Takes the player out of the open pool and returns its socket, if it was there. */
    method RemovePlayer(id: string) returns (socket: Option<S>)
      modifies this
      ensures (Snapshot(), socket) == RemovePlayerStep(old(Snapshot()), id)
    {
      socket := if id in openPlayers then Some(openPlayers[id]) else None;
      openPlayers := openPlayers - {id};
    }

    /** Moves an open player into a new room it owns, keyed by its id. */
    method CreateRoom(id: string)
      modifies this
      ensures Snapshot() == CreateRoomStep(old(Snapshot()), id)
    {
      var playerSocket := RemovePlayer(id);
      if playerSocket.Some? {
        activeRooms := activeRooms[id := Room(playerSocket.value, map[])];
      }
    }

    /** Moves the joiner out of the pool and, if the room exists, into its members. */
    method JoinRoom(joinerId: string, roomOwnerId: string)
      modifies this
      ensures Snapshot() == JoinRoomStep(old(Snapshot()), joinerId, roomOwnerId)
    {
      var playerSocket := RemovePlayer(joinerId);
      if roomOwnerId in activeRooms && playerSocket.Some? {
        var room := activeRooms[roomOwnerId];
        activeRooms := activeRooms[roomOwnerId := room.(members := room.members[joinerId := playerSocket.value])];
      }
    }

    /**
     * A member leaving drops out of the room; the owner leaving returns every
     * member and then the owner to the pool, one at a time, and deletes the room.
     */
    method LeaveRoom(leaverId: string, roomOwnerId: string)
      modifies this
      ensures Snapshot() == LeaveRoomStep(old(Snapshot()), leaverId, roomOwnerId)
    {
      if roomOwnerId in activeRooms && roomOwnerId != leaverId {
        var room := activeRooms[roomOwnerId];
        activeRooms := activeRooms[roomOwnerId := room.(members := room.members - {leaverId})];
      }
      if roomOwnerId in activeRooms && roomOwnerId == leaverId {
        var room := activeRooms[roomOwnerId];
        var pending := room.members.Keys;
        while pending != {}
          invariant pending <= room.members.Keys
          invariant activeRooms == old(activeRooms)
          invariant openPlayers == old(openPlayers) + (map k | k in room.members && k !in pending :: room.members[k])
          decreases pending
        {
          var k :| k in pending;
          AddPlayer(k, room.members[k]);
          pending := pending - {k};
        }
        assert openPlayers == old(openPlayers) + room.members;
        AddPlayer(roomOwnerId, room.owner);
        activeRooms := activeRooms - {roomOwnerId};
      }
    }
  }

  // ---------------------------------------------------------------------------
  // Properties

  /** Adding a player changes only that pool entry. */
  lemma AddPlayerOverwrites<S>(s: State<S>, id: string, socket: S)
    ensures var r := AddPlayerStep(s, id, socket);
            r.openPlayers == s.openPlayers[id := socket] && r.activeRooms == s.activeRooms
  {
  }

  /** Removing a player returns its stored socket, leaves it out of the pool, and is idempotent. */
  lemma RemovePlayerIdempotent<S>(s: State<S>, id: string)
    ensures var (r, socket) := RemovePlayerStep(s, id);
            id !in r.openPlayers && r.activeRooms == s.activeRooms &&
            (socket.Some? <==> id in s.openPlayers) &&
            (socket.Some? ==> socket.value == s.openPlayers[id]) &&
            RemovePlayerStep(r, id) == (r, None)
  {
    var (r, _) := RemovePlayerStep(s, id);
    assert r.openPlayers - {id} == r.openPlayers;
  }

  /** An open player who creates a room leaves the pool and owns a new room with no members. */
  lemma CreateRoomMovesOwner<S>(s: State<S>, id: string)
    ensures id in s.openPlayers ==>
              CreateRoomStep(s, id) ==
              State(s.openPlayers - {id}, s.activeRooms[id := Room(s.openPlayers[id], map[])])
    ensures id !in s.openPlayers ==> CreateRoomStep(s, id) == s
  {
  }

  /** The joiner always leaves the pool; when the room is missing it is then in no structure. */
  lemma JoinMissingRoomDropsPlayer<S>(s: State<S>, joinerId: string, roomOwnerId: string)
    requires roomOwnerId !in s.activeRooms
    ensures JoinRoomStep(s, joinerId, roomOwnerId) == State(s.openPlayers - {joinerId}, s.activeRooms)
  {
  }

  /** A joiner from the pool becomes a member of the existing room, with its socket. */
  lemma JoinExistingRoomAddsMember<S>(s: State<S>, joinerId: string, roomOwnerId: string)
    requires joinerId in s.openPlayers && roomOwnerId in s.activeRooms
    ensures var r := JoinRoomStep(s, joinerId, roomOwnerId);
            joinerId !in r.openPlayers && r.activeRooms.Keys == s.activeRooms.Keys &&
            r.activeRooms[roomOwnerId].owner == s.activeRooms[roomOwnerId].owner &&
            r.activeRooms[roomOwnerId].members == s.activeRooms[roomOwnerId].members[joinerId := s.openPlayers[joinerId]]
  {
  }

  /** A non-owner leaving drops out of the members only: it does not return to the pool and the room stays. */
  lemma MemberLeaveKeepsRoom<S>(s: State<S>, leaverId: string, roomOwnerId: string)
    requires roomOwnerId in s.activeRooms && leaverId != roomOwnerId
    ensures var r := LeaveRoomStep(s, leaverId, roomOwnerId);
            r.openPlayers == s.openPlayers &&
            r.activeRooms.Keys == s.activeRooms.Keys &&
            r.activeRooms[roomOwnerId].owner == s.activeRooms[roomOwnerId].owner &&
            r.activeRooms[roomOwnerId].members == s.activeRooms[roomOwnerId].members - {leaverId}
  {
  }

  /** The owner leaving deletes the room and puts the owner and every member back in the pool with their sockets. */
  lemma OwnerLeaveDisbands<S>(s: State<S>, roomOwnerId: string)
    requires roomOwnerId in s.activeRooms
    ensures var room := s.activeRooms[roomOwnerId];
            var r := LeaveRoomStep(s, roomOwnerId, roomOwnerId);
            roomOwnerId !in r.activeRooms &&
            r.activeRooms == s.activeRooms - {roomOwnerId} &&
            roomOwnerId in r.openPlayers && r.openPlayers[roomOwnerId] == room.owner &&
            (forall m :: m in room.members && m != roomOwnerId ==> m in r.openPlayers && r.openPlayers[m] == room.members[m]) &&
            forall p :: p in s.openPlayers && p !in room.members && p != roomOwnerId ==> r.openPlayers[p] == s.openPlayers[p]
  {
  }

  /** Leaving a room that does not exist changes nothing. */
  lemma LeaveMissingRoomIsNoOp<S>(s: State<S>, leaverId: string, roomOwnerId: string)
    requires roomOwnerId !in s.activeRooms
    ensures LeaveRoomStep(s, leaverId, roomOwnerId) == s
  {
  }

  /** Creating a room and then leaving it as its owner restores the pool and the room table. */
  lemma CreateThenLeaveRestores<S>(s: State<S>, id: string)
    requires id in s.openPlayers && id !in s.activeRooms
    ensures LeaveRoomStep(CreateRoomStep(s, id), id, id) == s
  {
    var c := CreateRoomStep(s, id);
    assert c.activeRooms[id] == Room(s.openPlayers[id], map[]);
    var r := LeaveRoomStep(c, id, id);
    assert r.openPlayers == ((s.openPlayers - {id}) + map[])[id := s.openPlayers[id]];
    assert r.openPlayers == s.openPlayers;
    assert r.activeRooms == s.activeRooms;
  }

  // ---------------------------------------------------------------------------
  // Where a player can be

  /** The player owns or belongs to some active room. */
  ghost predicate InSomeRoom<S>(s: State<S>, id: string) {
    exists owner :: owner in s.activeRooms && (id == owner || id in s.activeRooms[owner].members)
  }

  /**
   * Every player is in at most one place: the pool, or one room, as its owner
   * or as one of its members but not both.
   */
  ghost predicate Separated<S>(s: State<S>) {
    forall o1, o2 :: o1 in s.activeRooms && o2 in s.activeRooms ==>
      && o1 !in s.openPlayers
      && s.activeRooms[o1].members.Keys !! s.openPlayers.Keys
      && o1 !in s.activeRooms[o2].members
      && (o1 != o2 ==> s.activeRooms[o1].members.Keys !! s.activeRooms[o2].members.Keys)
  }

  /** Adding a player who is in no room keeps every player in at most one place. */
  lemma AddPlayerKeepsSeparated<S>(s: State<S>, id: string, socket: S)
    requires Separated(s) && !InSomeRoom(s, id)
    ensures Separated(AddPlayerStep(s, id, socket))
  {
    var r := AddPlayerStep(s, id, socket);
    forall o1 | o1 in r.activeRooms
      ensures o1 != id && id !in r.activeRooms[o1].members
    {
      assert !(id == o1 || id in s.activeRooms[o1].members);
    }
  }

  lemma CreateRoomKeepsSeparated<S>(s: State<S>, id: string)
    requires Separated(s)
    ensures Separated(CreateRoomStep(s, id))
  {
    if id in s.openPlayers {
      var r := CreateRoomStep(s, id);
      forall o | o in s.activeRooms
        ensures id != o && id !in s.activeRooms[o].members
      {
        assert s.activeRooms[o].members.Keys !! s.openPlayers.Keys;
      }
    }
  }

  lemma JoinRoomKeepsSeparated<S>(s: State<S>, joinerId: string, roomOwnerId: string)
    requires Separated(s)
    ensures Separated(JoinRoomStep(s, joinerId, roomOwnerId))
  {
    if joinerId in s.openPlayers && roomOwnerId in s.activeRooms {
      forall o | o in s.activeRooms
        ensures joinerId != o && joinerId !in s.activeRooms[o].members
      {
        assert s.activeRooms[o].members.Keys !! s.openPlayers.Keys;
      }
    }
  }

  lemma LeaveRoomKeepsSeparated<S>(s: State<S>, leaverId: string, roomOwnerId: string)
    requires Separated(s)
    ensures Separated(LeaveRoomStep(s, leaverId, roomOwnerId))
  {
    if roomOwnerId in s.activeRooms && roomOwnerId == leaverId {
      var room := s.activeRooms[roomOwnerId];
      var r := LeaveRoomStep(s, leaverId, roomOwnerId);
      assert r.openPlayers.Keys == s.openPlayers.Keys + room.members.Keys + {roomOwnerId};
      forall o1, o2 | o1 in r.activeRooms && o2 in r.activeRooms
        ensures o1 !in r.openPlayers && r.activeRooms[o1].members.Keys !! r.openPlayers.Keys
      {
        assert o1 != roomOwnerId && o1 !in room.members;
        assert s.activeRooms[o1].members.Keys !! room.members.Keys;
        assert roomOwnerId !in s.activeRooms[o1].members;
      }
    }
  }

  /** Removing a player from the pool keeps every player in at most one place. */
  lemma RemovePlayerKeepsSeparated<S>(s: State<S>, id: string)
    requires Separated(s)
    ensures Separated(RemovePlayerStep(s, id).0)
  {
  }

  /** Re-adding a room's owner to the pool puts that player in two places at once. */
  lemma AddRoomOwnerBreaksSeparation<S>(s: State<S>, owner: string, socket: S)
    requires owner in s.activeRooms
    ensures !Separated(AddPlayerStep(s, owner, socket))
  {
    var r := AddPlayerStep(s, owner, socket);
    assert owner in r.activeRooms && owner in r.openPlayers;
  }
}
