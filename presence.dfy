/** The presence registry (ChatRoomUserService.java): which usernames are
    currently attached to which room. */
module Presence {

  /** Room id -> usernames present. A room's set is created on the first
      join and is never removed, so an empty set may stay behind. */
  type PresenceMap = map<string, set<string>>

  /** getOrDefault(roomId, emptySet): an unknown room has no members. */
  function Members(m: PresenceMap, roomId: string): (users: set<string>)
    ensures roomId !in m ==> users == {}
    ensures roomId in m ==> users == m[roomId]
  {
    if roomId in m then m[roomId] else {}
  }

  /** computeIfAbsent(roomId, new set).add(username) */
  function WithUser(m: PresenceMap, roomId: string, username: string): (m': PresenceMap)
    ensures roomId in m' && m'.Keys == m.Keys + {roomId}
    ensures Members(m', roomId) == Members(m, roomId) + {username}
    ensures forall r :: r != roomId && r in m ==> m'[r] == m[r]
  {
    m[roomId := Members(m, roomId) + {username}]
  }

  /** get(roomId) and, when the room is known, remove(username) from its set. */
  function WithoutUser(m: PresenceMap, roomId: string, username: string): (m': PresenceMap)
    ensures m'.Keys == m.Keys
    ensures Members(m', roomId) == Members(m, roomId) - {username}
    ensures forall r :: r != roomId && r in m ==> m'[r] == m[r]
    ensures roomId !in m ==> m' == m
  {
    if roomId in m then m[roomId := m[roomId] - {username}] else m
  }

  /** What removeUserFromAllRooms leaves: the user taken out of every set. */
  function WithoutUserEverywhere(m: PresenceMap, username: string): (m': PresenceMap)
    ensures m'.Keys == m.Keys
  {
    map r | r in m :: m[r] - {username}
  }

  /** Afterwards the user is in no room, and every other user is in exactly
      the rooms they were in before. */
  lemma WithoutUserEverywhereEffect(m: PresenceMap, username: string)
    ensures forall r :: username !in Members(WithoutUserEverywhere(m, username), r)
    ensures forall r, v :: v != username ==>
              (v in Members(WithoutUserEverywhere(m, username), r) <==> v in Members(m, r))
  {
  }

  /** The bulk removal agrees, room by room, with the single-room removal. */
  lemma WithoutUserEverywhereIsPerRoom(m: PresenceMap, username: string, roomId: string)
    ensures Members(WithoutUserEverywhere(m, username), roomId)
         == Members(WithoutUser(m, roomId, username), roomId)
  {
  }

  /** Joining as a new member and then leaving restores the room's member
      set; the only trace left is a (possibly empty) entry for the room. */
  lemma JoinThenLeave(m: PresenceMap, roomId: string, username: string)
    requires username !in Members(m, roomId)
    ensures WithoutUser(WithUser(m, roomId, username), roomId, username)
         == m[roomId := Members(m, roomId)]
    ensures roomId in m ==> WithoutUser(WithUser(m, roomId, username), roomId, username) == m
  {
    var after := WithoutUser(WithUser(m, roomId, username), roomId, username);
    assert Members(after, roomId) == Members(m, roomId);
  }

  /** Leaving as a present member and joining again restores the map exactly. */
  lemma LeaveThenJoin(m: PresenceMap, roomId: string, username: string)
    requires username in Members(m, roomId)
    ensures WithUser(WithoutUser(m, roomId, username), roomId, username) == m
  {
    var after := WithUser(WithoutUser(m, roomId, username), roomId, username);
    assert Members(after, roomId) == Members(m, roomId);
  }

  /** A repeated join changes nothing: a username is in a set at most once. */
  lemma JoinIdempotent(m: PresenceMap, roomId: string, username: string)
    ensures WithUser(WithUser(m, roomId, username), roomId, username) == WithUser(m, roomId, username)
  {
  }

  /** ChatRoomUserService: the registry object every component shares. */
  class Registry {
    var roomUsers: PresenceMap

    constructor ()
      ensures roomUsers == map[]
    {
      roomUsers := map[];
    }

    /** getUsersInRoom(roomId), as a snapshot. */
    function GetUsersInRoom(roomId: string): (users: set<string>)
      reads this
      ensures roomId !in roomUsers ==> users == {}
      ensures roomId in roomUsers ==> users == roomUsers[roomId]
    {
      Members(roomUsers, roomId)
    }

    /** countUsersInRoom(roomId) */
    function CountUsersInRoom(roomId: string): (n: nat)
      reads this
      ensures n == |GetUsersInRoom(roomId)|
      ensures n == 0 <==> GetUsersInRoom(roomId) == {}
    {
      |GetUsersInRoom(roomId)|
    }

    /** addUserToRoom(roomId, username): true iff the user was not there yet. */
    method AddUserToRoom(roomId: string, username: string) returns (added: bool)
      modifies this
      ensures added <==> username !in old(GetUsersInRoom(roomId))
      ensures roomUsers == WithUser(old(roomUsers), roomId, username)
      ensures username in GetUsersInRoom(roomId)
    {
      added := username !in Members(roomUsers, roomId);
      roomUsers := roomUsers[roomId := Members(roomUsers, roomId) + {username}];
    }

    /** removeUserFromRoom(roomId, username): true iff the user was there. */
    method RemoveUserFromRoom(roomId: string, username: string) returns (removed: bool)
      modifies this
      ensures removed <==> username in old(GetUsersInRoom(roomId))
      ensures roomUsers == WithoutUser(old(roomUsers), roomId, username)
      ensures username !in GetUsersInRoom(roomId)
      ensures roomId !in old(roomUsers) ==> !removed && roomUsers == old(roomUsers)
    {
      if roomId in roomUsers {
        removed := username in roomUsers[roomId];
        roomUsers := roomUsers[roomId := roomUsers[roomId] - {username}];
      } else {
        removed := false;
      }
    }

    /** removeUserFromAllRooms(username): visits every room's set in turn
        and removes the user from it in place. */
    method RemoveUserFromAllRooms(username: string)
      modifies this
      ensures roomUsers == WithoutUserEverywhere(old(roomUsers), username)
    {
      var pending := roomUsers.Keys;
      while pending != {}
        invariant pending <= roomUsers.Keys && roomUsers.Keys == old(roomUsers).Keys
        invariant forall r :: r in roomUsers && r !in pending ==> roomUsers[r] == old(roomUsers)[r] - {username}
        invariant forall r :: r in pending ==> roomUsers[r] == old(roomUsers)[r]
        decreases pending
      {
        var r :| r in pending;
        roomUsers := roomUsers[r := roomUsers[r] - {username}];
        pending := pending - {r};
      }
    }
  }
}
