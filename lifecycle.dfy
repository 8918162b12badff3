/** Disconnect reconciliation (WebSocketEventListener.java): take the
    departing user out of the room, announce it only when that changed
    something, and delete the room when its owner left it empty. */
module Lifecycle {
  import opened Common
  import opened Messages
  import opened Collaborators
  import opened Presence
  import opened RoomDirectory

  /** The deletion rule: the room still exists, the departing user owns it,
      and nobody is left in it. */
  predicate AbandonedByOwner(rooms: map<string, ChatRoom>, roomId: string, username: string,
                             remaining: set<string>): (b: bool)
    ensures b ==> roomId in rooms && rooms[roomId].owner == username && |remaining| == 0
    ensures !b ==> roomId !in rooms || rooms[roomId].owner != username || |remaining| > 0
  {
    roomId in rooms && rooms[roomId].owner == username && remaining == {}
  }

  class WebSocketEventListener {
    const userService: Registry
    const roomService: ChatRoomService
    const broker: Broker

    constructor (userService: Registry, roomService: ChatRoomService, broker: Broker)
      ensures this.userService == userService && this.roomService == roomService
      ensures this.broker == broker
    {
      this.userService := userService;
      this.roomService := roomService;
      this.broker := broker;
    }

    /** handleWebSocketDisconnectListener(event), given the session's
        attribute map. The deletion rule is applied whether or not the
        removal changed anything. */
    method HandleWebSocketDisconnect(session: SessionAttributes?)
      requires roomService.Valid()
      modifies userService, roomService, broker
      ensures roomService.Valid() && roomService.categories == old(roomService.categories)
      ensures DisconnectContext(session).None? ==>
                && userService.roomUsers == old(userService.roomUsers)
                && roomService.rooms == old(roomService.rooms)
                && broker.sent == old(broker.sent)
      ensures DisconnectContext(session).Some? ==>
                var (username, roomId) := DisconnectContext(session).value;
                var before := old(userService.GetUsersInRoom(roomId));
                && userService.roomUsers == WithoutUser(old(userService.roomUsers), roomId, username)
                && broker.sent == old(broker.sent) + (
                     if username in before
                     then [(RoomTopic(roomId), LeaveNotice(roomId, username)),
                           (RoomTopic(roomId), Roster(roomId, before - {username}))]
                     else [])
                && roomService.rooms ==
                     if AbandonedByOwner(old(roomService.rooms), roomId, username, before - {username})
                     then old(roomService.rooms) - {roomId}
                     else old(roomService.rooms)
      // A departure that is not the owner's never deletes the room, and
      // neither does the owner's while others remain.
      ensures DisconnectContext(session).Some? ==>
                var (username, roomId) := DisconnectContext(session).value;
                && ((roomId in old(roomService.rooms) && old(roomService.rooms)[roomId].owner != username)
                      ==> roomService.rooms == old(roomService.rooms))
                && ((old(userService.GetUsersInRoom(roomId)) - {username} != {})
                      ==> roomService.rooms == old(roomService.rooms))
      // A user already gone from the room causes no broadcast.
      ensures DisconnectContext(session).Some? ==>
                var (username, roomId) := DisconnectContext(session).value;
                username !in old(userService.GetUsersInRoom(roomId)) ==> broker.sent == old(broker.sent)
    {
      var context := DisconnectContext(session);
      if context.None? {
        return;
      }
      var (username, roomId) := context.value;
      var removed := userService.RemoveUserFromRoom(roomId, username);
      if removed {
        broker.ConvertAndSend(RoomTopic(roomId), LeaveNotice(roomId, username));
        var users := userService.GetUsersInRoom(roomId);
        var update := Roster(roomId, users);
        assert update.userCount == userService.CountUsersInRoom(roomId);
        broker.ConvertAndSend(RoomTopic(roomId), update);
      }
      var chatRoom := roomService.FindChatRoomById(roomId);
      if chatRoom.Some? && username == chatRoom.value.owner && userService.CountUsersInRoom(roomId) == 0 {
        var deleted := roomService.DeleteRoom(roomId);
        assert deleted == Pass;
      }
    }
  }
}
