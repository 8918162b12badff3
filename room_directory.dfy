/** The room directory (ChatRoomService.java): categories, rooms, the
    ownership test, deletion and the creation of a room under a fresh id. */
module RoomDirectory {
  import opened Common
  import Presence

  /** A ChatRoom entity. `categoryId` stands for the category reference,
      which the entity requires to be set. */
  datatype ChatRoom = ChatRoom(roomId: string, name: string, categoryId: string,
                               owner: string, createdAt: int)

  /** A CommunityCategory entity (its back-list of rooms is not kept). */
  datatype CommunityCategory = CommunityCategory(categoryId: string, name: string,
                                                 description: string, createdAt: int)

  /** ChatRoomDto: a room as the API shows it, with the live user count. */
  datatype ChatRoomDto = ChatRoomDto(roomId: string, name: string, createdAt: int,
                                     categoryId: string, currentUserCount: int)

  /** createChatRoom tries at most this many regenerated ids after the first. */
  const MaxRegenerations: nat := 5

  /** The decimal text of a digit 0..9, as `"-" + attempt` writes it. */
  function DigitText(d: nat): (s: string)
    requires d < 10
    ensures |s| == 1 && '0' <= s[0] <= '9'
    ensures s[0] as int - '0' as int == d
  {
    [('0' as int + d) as char]
  }

  /** The k-th id createChatRoom considers: the first eight characters of a
      fresh UUID, and from then on such a prefix followed by "-" and the
      number of the attempt. `prefixes(k)` is the k-th UUID prefix drawn. */
  function Candidate(prefixes: nat -> string, k: nat): (id: string)
    requires k <= MaxRegenerations
    ensures k == 0 ==> id == prefixes(0)
    ensures k > 0 ==> && |id| == |prefixes(k)| + 2 && id[..|prefixes(k)|] == prefixes(k)
                      && id[|prefixes(k)|] == '-' && id[|id| - 1] as int - '0' as int == k - 1
  {
    if k == 0 then prefixes(0) else prefixes(k) + "-" + DigitText(k - 1)
  }

  /** `id` is the first of the candidates that `rooms` does not hold. */
  ghost predicate FirstFreeCandidate(rooms: map<string, ChatRoom>, prefixes: nat -> string, id: string)
  {
    exists k :: 0 <= k <= MaxRegenerations && id == Candidate(prefixes, k) && id !in rooms
                && forall j :: 0 <= j < k ==> Candidate(prefixes, j) in rooms
  }

  class ChatRoomService {
    var rooms: map<string, ChatRoom>
    var categories: map<string, CommunityCategory>
    const userService: Presence.Registry

    /** Each repository is keyed by the entity's own id. */
    ghost predicate Valid()
      reads this
    {
      && (forall id :: id in rooms ==> rooms[id].roomId == id)
      && (forall id :: id in categories ==> categories[id].categoryId == id)
    }

    constructor (userService: Presence.Registry)
      ensures Valid() && rooms == map[] && categories == map[]
      ensures this.userService == userService
    {
      rooms := map[];
      categories := map[];
      this.userService := userService;
    }

    /** findChatRoomById(roomId) */
    function FindChatRoomById(roomId: string): (r: Option<ChatRoom>)
      reads this
      ensures r.Some? <==> roomId in rooms
      ensures r.Some? ==> r.value == rooms[roomId]
      ensures r.Some? && Valid() ==> r.value.roomId == roomId
    {
      if roomId in rooms then Some(rooms[roomId]) else None
    }

    /** isRoomOwner(roomId, username): an unknown room has no owner. */
    function IsRoomOwner(roomId: string, username: string): (b: bool)
      reads this
      ensures b <==> roomId in rooms && rooms[roomId].owner == username
      ensures b ==> FindChatRoomById(roomId).Some?
    {
      match FindChatRoomById(roomId)
      case Some(room) => room.owner == username
      case None => false
    }

    /** findChatRoomDtoById(roomId): the room with the registry's current
        count of users in it. */
    function FindChatRoomDtoById(roomId: string): (r: Option<ChatRoomDto>)
      reads this, userService
      ensures r.Some? <==> roomId in rooms
      ensures r.Some? ==> r.value.currentUserCount == userService.CountUsersInRoom(roomId)
      ensures r.Some? ==> r.value.roomId == rooms[roomId].roomId && r.value.name == rooms[roomId].name
                          && r.value.categoryId == rooms[roomId].categoryId
                          && r.value.createdAt == rooms[roomId].createdAt
      ensures r.Some? && Valid() ==> r.value.roomId == roomId
    {
      match FindChatRoomById(roomId)
      case Some(room) =>
        Some(ChatRoomDto(room.roomId, room.name, room.createdAt, room.categoryId,
                         userService.CountUsersInRoom(roomId)))
      case None => None
    }

    /** deleteRoom(roomId): an unknown room is an IllegalArgumentException. */
    method DeleteRoom(roomId: string) returns (outcome: Outcome)
      requires Valid()
      modifies this
      ensures Valid()
      ensures outcome == Fail(IllegalArgument) <==> roomId !in old(rooms)
      ensures outcome.Fail? ==> outcome == Fail(IllegalArgument)
      ensures rooms == old(rooms) - {roomId} && categories == old(categories)
    {
      var found := FindChatRoomById(roomId);
      if found.None? {
        return Fail(IllegalArgument);
      }
      rooms := rooms - {roomId};
      outcome := Pass;
    }

    /** createCommunityCategory(categoryId, name, description): an id that
        is already taken is an IllegalArgumentException. */
    method CreateCommunityCategory(categoryId: string, name: string, description: string, now: int)
      returns (result: Result<CommunityCategory>)
      requires Valid()
      modifies this
      ensures Valid() && rooms == old(rooms)
      ensures result.Failure? <==> categoryId in old(categories)
      ensures result.Failure? ==> result.error == IllegalArgument && categories == old(categories)
      ensures result.Success? ==>
                && result.value == CommunityCategory(categoryId, name, description, now)
                && categories == old(categories)[categoryId := result.value]
    {
      if categoryId in categories {
        return Failure(IllegalArgument);
      }
      var category := CommunityCategory(categoryId, name, description, now);
      categories := categories[categoryId := category];
      result := Success(category);
    }

    /** The id-picking part of createChatRoom: draw a first id, regenerate
        it while it is taken and fewer than five retries were made, and
        give up with an IllegalStateException if the last one is still
        taken. The result is the first candidate that is free. */
    method PickRoomId(prefixes: nat -> string) returns (result: Result<string>)
      ensures result.Failure? <==> forall k :: 0 <= k <= MaxRegenerations ==> Candidate(prefixes, k) in rooms
      ensures result.Failure? ==> result.error == IllegalState
      ensures result.Success? ==> FirstFreeCandidate(rooms, prefixes, result.value)
      ensures prefixes(0) !in rooms ==> result == Success(prefixes(0))
    {
      var newRoomId := prefixes(0);
      var attempt: nat := 0;
      while newRoomId in rooms && attempt < MaxRegenerations
        invariant attempt <= MaxRegenerations
        invariant newRoomId == Candidate(prefixes, attempt)
        invariant forall j :: 0 <= j < attempt ==> Candidate(prefixes, j) in rooms
      {
        newRoomId := prefixes(attempt + 1) + "-" + DigitText(attempt);
        attempt := attempt + 1;
      }
      if newRoomId in rooms {
        return Failure(IllegalState);
      }
      result := Success(newRoomId);
    }

    /** createChatRoom(categoryId, name, ownerUsername): the category must
        exist; the room is saved under a free id with the given name,
        category and owner. */
    method CreateChatRoom(categoryId: string, name: string, owner: string,
                          prefixes: nat -> string, now: int)
      returns (result: Result<ChatRoom>)
      requires Valid()
      modifies this
      ensures Valid() && categories == old(categories)
      ensures result.Failure? ==> rooms == old(rooms)
      ensures result == Failure(IllegalArgument) <==> categoryId !in old(categories)
      ensures result == Failure(IllegalState) <==>
                categoryId in old(categories)
                && forall k :: 0 <= k <= MaxRegenerations ==> Candidate(prefixes, k) in old(rooms)
      ensures result.Success? <==>
                categoryId in old(categories)
                && exists k :: 0 <= k <= MaxRegenerations && Candidate(prefixes, k) !in old(rooms)
      ensures result.Success? ==>
                && result.value.roomId !in old(rooms)
                && FirstFreeCandidate(old(rooms), prefixes, result.value.roomId)
                && result.value == ChatRoom(result.value.roomId, name, categoryId, owner, now)
                && rooms == old(rooms)[result.value.roomId := result.value]
      ensures (categoryId in old(categories) && prefixes(0) !in old(rooms)) ==>
                result.Success? && result.value.roomId == prefixes(0)
    {
      if categoryId !in categories {
        return Failure(IllegalArgument);
      }
      var picked := PickRoomId(prefixes);
      if picked.Failure? {
        return Failure(picked.error);
      }
      var room := ChatRoom(picked.value, name, categoryId, owner, now);
      rooms := rooms[room.roomId := room];
      result := Success(room);
    }
  }
}
