/** The worked scenarios of the chat core, verified against the contracts of the
    components wired together as the application wires them: one registry,
    one room service and one broker shared by every controller. */
module Scenarios {
  import opened Common
  import opened Messages
  import opened Collaborators
  import opened Presence
  import opened RoomDirectory
  import opened Dispatch
  import opened Moderation
  import opened Lifecycle
  import opened AdminApi

  /** A room service holding one category and the room `roomId` owned by
      `owner`, with an empty registry. */
  method RoomWithOwner(roomId: string, owner: string)
    returns (registry: Registry, rooms: ChatRoomService)
    ensures fresh(registry) && fresh(rooms) && rooms.Valid()
    ensures registry.roomUsers == map[] && rooms.userService == registry
    ensures rooms.rooms.Keys == {roomId} && rooms.rooms[roomId].owner == owner
  {
    registry := new Registry();
    rooms := new ChatRoomService(registry);
    var category := rooms.CreateCommunityCategory("politics", "Politics", "", 0);
    assert "politics" in rooms.categories && rooms.rooms == map[];
    var prefixes: nat -> string := k => roomId;
    assert Candidate(prefixes, 0) == roomId && roomId !in rooms.rooms;
    var created := rooms.CreateChatRoom("politics", "Room", owner, prefixes, 0);
  }

  /** R1 is owned by alice; bob joins and disconnects: alice remains, the
      room survives, and the room hears bob's LEAVE and a list of one. */
  method MemberLeaves()
  {
    var registry, rooms := RoomWithOwner("R1", "alice");
    var broker := new Broker();
    var repository := new MessageRepository();
    var controller := new ChatController(repository, broker, rooms, registry);
    var listener := new WebSocketEventListener(registry, rooms, broker);
    var aliceSession := new SessionAttributes(map[]);
    var bobSession := new SessionAttributes(map[]);
    controller.AddUser(Blank.(sender := Some("alice")), "R1", aliceSession);
    controller.AddUser(Blank.(sender := Some("bob")), "R1", bobSession);
    assert registry.GetUsersInRoom("R1") == {"alice", "bob"};
    var before := broker.sent;
    listener.HandleWebSocketDisconnect(bobSession);
    assert registry.GetUsersInRoom("R1") == {"alice"};
    assert "R1" in rooms.rooms;
    assert broker.sent == before + [(RoomTopic("R1"), LeaveNotice("R1", "bob")),
                                    (RoomTopic("R1"), Roster("R1", {"alice"}))];
    assert broker.sent[|broker.sent| - 1].1.userCount == 1;
  }

  /** R2 is owned by carol, its only member; carol disconnects and both
      disconnect listeners run, in either order. The room is deleted
      either way, and exactly one LEAVE is announced. */
  method OwnerLeavesEmptyRoom(controllerFirst: bool)
  {
    var registry, rooms := RoomWithOwner("R2", "carol");
    var broker := new Broker();
    var repository := new MessageRepository();
    var controller := new ChatController(repository, broker, rooms, registry);
    var listener := new WebSocketEventListener(registry, rooms, broker);
    var session := new SessionAttributes(map[]);
    controller.AddUser(Blank.(sender := Some("carol")), "R2", session);
    var before := broker.sent;
    if controllerFirst {
      controller.HandleWebSocketDisconnect(session);
      listener.HandleWebSocketDisconnect(session);
      assert broker.sent == before + [(RoomTopic("R2"), LeaveNotice("R2", "carol")),
                                      (RoomTopic("R2"), SystemRoster("R2", {}))];
    } else {
      listener.HandleWebSocketDisconnect(session);
      controller.HandleWebSocketDisconnect(session);
      assert broker.sent == before + [(RoomTopic("R2"), LeaveNotice("R2", "carol")),
                                      (RoomTopic("R2"), Roster("R2", {}))];
    }
    assert registry.GetUsersInRoom("R2") == {};
    assert "R2" !in rooms.rooms;
    // A further disconnect event for the same session changes nothing.
    var after := broker.sent;
    listener.HandleWebSocketDisconnect(session);
    assert broker.sent == after && "R2" !in rooms.rooms;
  }

  /** dave, who does not own R3, sends at t0, t0 + 1 s and t0 + 6 s: the
      second message is neither saved nor broadcast. The owner is never
      held back. */
  method CooldownDropsEarlyMessage(t0: int)
  {
    var registry, rooms := RoomWithOwner("R3", "erin");
    var broker := new Broker();
    var repository := new MessageRepository();
    var controller := new ChatController(repository, broker, rooms, registry);
    var hello := Blank.(sender := Some("dave"), content := Some("hello"));
    controller.SendMessage(hello, "R3", t0);
    controller.SendMessage(hello, "R3", t0 + 1000);
    assert |repository.saved| == 1 && |broker.sent| == 1;
    controller.SendMessage(hello, "R3", t0 + 6000);
    assert |repository.saved| == 2 && |broker.sent| == 2;
    assert repository.saved[1] == PersistedChatMessage(Some("dave"), Some("hello"), Chat, t0 + 6000);
    var owner := Blank.(sender := Some("erin"), msgType := Some(Chat));
    controller.SendMessage(owner, "R3", t0 + 6000);
    controller.SendMessage(owner, "R3", t0 + 6001);
    assert |repository.saved| == 4;
  }

  /** The kick endpoint wired to a room R4 owned by alice, where alice
      and bob are present, and nothing sent yet. */
  method KickSetup() returns (registry: Registry, broker: Broker, endpoint: ChatRoomAdminController)
    ensures fresh(registry) && fresh(broker)
    ensures endpoint.adminService.broker == broker && endpoint.adminService.userService == registry
    ensures endpoint.roomService.rooms.Keys == {"R4"} && endpoint.roomService.rooms["R4"].owner == "alice"
    ensures registry.roomUsers == map["R4" := {"alice", "bob"}] && broker.sent == []
  {
    var rooms;
    registry, rooms := RoomWithOwner("R4", "alice");
    broker := new Broker();
    var admin := new ChatAdminService(broker, registry);
    endpoint := new ChatRoomAdminController(admin, rooms);
    var _ := registry.AddUserToRoom("R4", "alice");
    var _ := registry.AddUserToRoom("R4", "bob");
    assert registry.roomUsers.Keys == {"R4"} && registry.roomUsers["R4"] == {"alice", "bob"};
  }

  /** Without an authenticated principal the answer is 401. */
  method KickUnauthenticated()
  {
    var registry, broker, endpoint := KickSetup();
    var status := endpoint.KickUser("R4", Some("bob"), None);
    assert status == Unauthorized && broker.sent == [];
  }

  /** A blank target is 400. */
  method KickBlankTarget()
  {
    var registry, broker, endpoint := KickSetup();
    assert AllSpace("  ");
    var status := endpoint.KickUser("R4", Some("  "), Some(Authentication("alice", true)));
    assert status == BadRequest && broker.sent == [];
  }

  /** An unknown room is 404. */
  method KickUnknownRoom()
  {
    var registry, broker, endpoint := KickSetup();
    var status := endpoint.KickUser("R9", Some("bob"), Some(Authentication("alice", true)));
    assert status == NotFound && broker.sent == [];
  }

  /** A requester who does not own the room is 403. */
  method KickByNonOwner()
  {
    var registry, broker, endpoint := KickSetup();
    var status := endpoint.KickUser("R4", Some("bob"), Some(Authentication("mallory", true)));
    assert status == Forbidden && broker.sent == [];
  }

  /** The owner kicking themself is refused by the service: 400, and the
      room keeps both members. */
  method KickSelf()
  {
    var registry, broker, endpoint := KickSetup();
    var status := endpoint.KickUser("R4", Some("alice"), Some(Authentication("alice", true)));
    assert status == BadRequest && broker.sent == [];
    assert registry.GetUsersInRoom("R4") == {"alice", "bob"};
  }

  /** alice kicks bob from R4: 200, bob is told first and privately, and
      bob is gone; kicking bob again is refused with 400. */
  method KickAccepted()
  {
    var registry, broker, endpoint := KickSetup();
    var alice := Some(Authentication("alice", true));
    var status := endpoint.KickUser("R4", Some("bob"), alice);
    assert status == Ok;
    assert registry.GetUsersInRoom("R4") == {"alice"};
    assert |broker.sent| == 3 && broker.sent[0].0 == UserQueue("bob", PrivateQueue);
    status := endpoint.KickUser("R4", Some("bob"), alice);
    assert status == BadRequest;
  }
}
