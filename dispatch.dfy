/** Chat dispatch (ChatController.java): joining a room, sending a message
    under a per-(sender, room) cooldown from which the room owner is exempt,
    and the controller's own disconnect listener. Time is a count of
    milliseconds. */
module Dispatch {
  import opened Common
  import opened Messages
  import opened Collaborators
  import opened Presence
  import opened RoomDirectory

  /** CHAT_COOLDOWN_SECONDS */
  const ChatCooldownSeconds: int := 5
  const MillisPerSecond: int := 1000

  /** ChronoUnit.SECONDS.between(from, to): the whole seconds elapsed,
      truncated toward zero, so 4.999 s count as 4 and a clock that went
      back gives a negative or zero count. */
  function SecondsBetween(from: int, to: int): (s: int)
    ensures from <= to ==> 0 <= s && s * MillisPerSecond <= to - from < s * MillisPerSecond + MillisPerSecond
    ensures to < from ==> s <= 0 && s * MillisPerSecond - MillisPerSecond < to - from <= s * MillisPerSecond
  {
    if from <= to then (to - from) / MillisPerSecond else -((from - to) / MillisPerSecond)
  }

  /** Whether a message passes the cooldown check: a moderator always does;
      anyone else does when no earlier accepted message is on record or at
      least five full seconds have passed since it. */
  function Admits(isModerator: bool, last: Option<int>, now: int): (ok: bool)
    ensures isModerator ==> ok
    ensures !isModerator ==>
              (ok <==> last.None? || now - last.value >= ChatCooldownSeconds * MillisPerSecond)
  {
    if isModerator then true
    else match last
      case None => true
      case Some(t) => !(SecondsBetween(t, now) < ChatCooldownSeconds)
  }

  /** The cooldown map's key: the Java code concatenates sender, ":" and
      room id; the model keeps the two parts apart. */
  type CooldownKey = (Option<string>, string)

  /** The key as the Java code builds it: `sender + ":" + roomId`, where a
      null sender is written as "null". */
  function KeyText(sender: Option<string>, roomId: string): (s: string)
    ensures |s| > |roomId| && s[|s| - |roomId|..] == roomId && s[|s| - |roomId| - 1] == ':'
    ensures sender.Some? ==> |s| == |sender.value| + 1 + |roomId| && s[..|sender.value|] == sender.value
  {
    (if sender.Some? then sender.value else "null") + ":" + roomId
  }

  /** Two different (sender, room) pairs share one text key when a colon
      moves between sender and room id, and a null sender shares the key of
      the user named "null". */
  lemma KeyTextCollides()
    ensures (Some("a:b"), "c") != (Some("a"), "b:c") && KeyText(Some("a:b"), "c") == KeyText(Some("a"), "b:c")
    ensures KeyText(None, "r") == KeyText(Some("null"), "r")
  {
    assert KeyText(Some("a:b"), "c") == "a:b:c";
    assert KeyText(Some("a"), "b:c") == "a:b:c";
    assert (Some("a:b"), "c").0 != (Some("a"), "b:c").0 by {
      assert "a:b"[1] != "a"[0] || |"a:b"| != |"a"|;
    }
  }

  /** When the sender is known and room ids hold no colon, the text key
      determines the pair, so keying the map by the pair changes nothing. */
  lemma KeyTextInjective(s1: string, r1: string, s2: string, r2: string)
    requires ':' !in r1 && ':' !in r2
    requires KeyText(Some(s1), r1) == KeyText(Some(s2), r2)
    ensures s1 == s2 && r1 == r2
  {
    var t := KeyText(Some(s1), r1);
    // The colon before each room id lies outside the other room id.
    forall i | |t| - |r2| <= i < |t| ensures t[i] != ':' {
      assert t[i] == r2[i - (|t| - |r2|)];
    }
    forall i | |t| - |r1| <= i < |t| ensures t[i] != ':' {
      assert t[i] == r1[i - (|t| - |r1|)];
    }
    assert t[|t| - |r1| - 1] == ':' && t[|t| - |r2| - 1] == ':';
    assert |r1| == |r2|;
    assert r1 == t[|t| - |r1|..] == r2;
    assert s1 == t[..|s1|] == s2;
  }

  /** The times at which a run of messages from one non-owner sender in one
      room is accepted, given the time of the last accepted one before the
      run. A dropped message does not move the clock. */
  function AcceptedRun(last: Option<int>, attempts: seq<int>): seq<int>
    decreases |attempts|
  {
    if attempts == [] then []
    else if Admits(false, last, attempts[0]) then [attempts[0]] + AcceptedRun(Some(attempts[0]), attempts[1..])
    else AcceptedRun(last, attempts[1..])
  }

  /** The rate limit the cooldown enforces: accepted messages from the same
      non-owner sender in the same room are at least five seconds apart, and
      the first is five seconds after the last one accepted before. Every
      accepted time is one of the attempts. */
  lemma {:induction false} CooldownSpacing(last: Option<int>, attempts: seq<int>)
    ensures var acc := AcceptedRun(last, attempts);
            && (forall i, j :: 0 <= i < j < |acc| ==> acc[j] - acc[i] >= ChatCooldownSeconds * MillisPerSecond)
            && (last.Some? && acc != [] ==> acc[0] - last.value >= ChatCooldownSeconds * MillisPerSecond)
            && (forall i :: 0 <= i < |acc| ==> acc[i] in attempts)
    decreases |attempts|
  {
    if attempts != [] {
      var t := attempts[0];
      if Admits(false, last, t) {
        CooldownSpacing(Some(t), attempts[1..]);
        var rest := AcceptedRun(Some(t), attempts[1..]);
        var acc := [t] + rest;
        assert AcceptedRun(last, attempts) == acc;
        forall i, j | 0 <= i < j < |acc|
          ensures acc[j] - acc[i] >= ChatCooldownSeconds * MillisPerSecond
        {
          if i == 0 {
            assert acc[j] == rest[j - 1];
            if j - 1 > 0 {
              assert rest[j - 1] - rest[0] >= ChatCooldownSeconds * MillisPerSecond;
            }
          } else {
            assert acc[i] == rest[i - 1] && acc[j] == rest[j - 1];
          }
        }
        forall i | 0 <= i < |acc| ensures acc[i] in attempts {
          if i > 0 {
            assert acc[i] == rest[i - 1];
            assert rest[i - 1] in attempts[1..];
          }
        }
      } else {
        CooldownSpacing(last, attempts[1..]);
        var acc := AcceptedRun(last, attempts[1..]);
        forall i | 0 <= i < |acc| ensures acc[i] in attempts {
          assert acc[i] in attempts[1..];
        }
      }
    }
  }

  /** A message one second after an accepted one is dropped; six seconds
      after, it is accepted. */
  lemma CooldownScenario(t0: int)
    ensures AcceptedRun(None, [t0, t0 + 1000, t0 + 6000]) == [t0, t0 + 6000]
  {
    assert Admits(false, None, t0);
    assert !Admits(false, Some(t0), t0 + 1000);
    assert Admits(false, Some(t0), t0 + 6000);
    assert AcceptedRun(None, [t0, t0 + 1000, t0 + 6000])
        == [t0] + AcceptedRun(Some(t0), [t0 + 1000, t0 + 6000]);
    assert [t0 + 1000, t0 + 6000][1..] == [t0 + 6000];
    assert AcceptedRun(Some(t0), [t0 + 1000, t0 + 6000]) == AcceptedRun(Some(t0), [t0 + 6000]);
    assert AcceptedRun(Some(t0), [t0 + 6000]) == [t0 + 6000] + AcceptedRun(Some(t0 + 6000), []);
  }

  /** A drop does not restart the cooldown: after an accept at t0 and a drop
      at t0 + 4 s, a message at t0 + 5 s is accepted. Seconds are whole, so
      4.999 s after an accept is still too early. */
  lemma DropDoesNotResetClock(t0: int)
    ensures AcceptedRun(None, [t0, t0 + 4000, t0 + 5000]) == [t0, t0 + 5000]
    ensures !Admits(false, Some(t0), t0 + 4999)
  {
    assert AcceptedRun(None, [t0, t0 + 4000, t0 + 5000])
        == [t0] + AcceptedRun(Some(t0), [t0 + 4000, t0 + 5000]);
    assert [t0 + 4000, t0 + 5000][1..] == [t0 + 5000];
    assert AcceptedRun(Some(t0), [t0 + 4000, t0 + 5000]) == AcceptedRun(Some(t0), [t0 + 5000]);
    assert AcceptedRun(Some(t0), [t0 + 5000]) == [t0 + 5000] + AcceptedRun(Some(t0 + 5000), []);
  }

  const UserListContent: string := "사용자 목록 업데이트"

  /** The USER_LIST_UPDATE the controller broadcasts: sent by "System". */
  function SystemRoster(roomId: string, users: set<string>): (m: ChatMessage)
    ensures m.msgType == Some(UserListUpdate) && m.roomId == Some(roomId)
    ensures m.users == Some(users) && m.userCount == |users| && m.sender == Some("System")
  {
    Roster(roomId, users).(sender := Some("System"), content := Some(UserListContent))
  }

  /** The JOIN announcement: the joiner's own message, retyped, with a
      content naming the joiner and the room id set. */
  function JoinNotice(message: ChatMessage, roomId: string, username: string): (m: ChatMessage)
    ensures m.msgType == Some(Join) && m.roomId == Some(roomId) && m.sender == message.sender
    ensures m.content.Some? && Mentions(m.content.value, username)
  {
    MentionsInMiddle([], username, JoinSuffix);
    assert [] + username + JoinSuffix == username + JoinSuffix;
    message.(msgType := Some(Join), content := Some(username + JoinSuffix), roomId := Some(roomId))
  }

  /** What an accepted message is saved as: a missing type defaults to CHAT. */
  function Persisted(message: ChatMessage, now: int): (p: PersistedChatMessage)
    ensures p.sender == message.sender && p.content == message.content && p.timestamp == now
    ensures p.messageType == if message.msgType.None? then Chat else message.msgType.value
  {
    PersistedChatMessage(message.sender, message.content,
                         if message.msgType.Some? then message.msgType.value else Chat, now)
  }

  class ChatController {
    const repository: MessageRepository
    const broker: Broker
    const roomService: ChatRoomService
    const userService: Registry
    /** lastMessageTimes */
    var lastMessageTimes: map<CooldownKey, int>

    constructor (repository: MessageRepository, broker: Broker,
                 roomService: ChatRoomService, userService: Registry)
      ensures this.repository == repository && this.broker == broker
      ensures this.roomService == roomService && this.userService == userService
      ensures lastMessageTimes == map[]
    {
      this.repository := repository;
      this.broker := broker;
      this.roomService := roomService;
      this.userService := userService;
      lastMessageTimes := map[];
    }

    /** isModerator(username, roomId): a null name or room id, or a room
        that does not exist, never makes a moderator. */
    function IsModerator(username: Option<string>, roomId: Option<string>): (b: bool)
      reads roomService
      ensures b <==> username.Some? && roomId.Some? && roomService.IsRoomOwner(roomId.value, username.value)
      ensures username.None? || roomId.None? ==> !b
      ensures roomId.Some? && roomId.value !in roomService.rooms ==> !b
    {
      if username.None? || roomId.None? then false
      else match roomService.FindChatRoomById(roomId.value)
        case Some(room) => username.value == room.owner
        case None => false
    }

    /** The time of the last accepted message recorded for a key. */
    function LastAccepted(key: CooldownKey): (t: Option<int>)
      reads this
      ensures t.Some? <==> key in lastMessageTimes
      ensures t.Some? ==> t.value == lastMessageTimes[key]
    {
      if key in lastMessageTimes then Some(lastMessageTimes[key]) else None
    }

    /** Whether sendMessage(message, roomId) at `now` goes through. */
    function Accepts(message: ChatMessage, roomId: string, now: int): (ok: bool)
      reads this, roomService
      ensures IsModerator(message.sender, Some(roomId)) ==> ok
      ensures !IsModerator(message.sender, Some(roomId)) ==>
                (ok <==> (message.sender, roomId) !in lastMessageTimes
                         || now - lastMessageTimes[(message.sender, roomId)] >= ChatCooldownSeconds * MillisPerSecond)
    {
      Admits(IsModerator(message.sender, Some(roomId)), LastAccepted((message.sender, roomId)), now)
    }

    /** broadcastUserList(roomId): the current member set and its size. */
    method BroadcastUserList(roomId: string)
      modifies broker
      ensures broker.sent == old(broker.sent) + [(RoomTopic(roomId), SystemRoster(roomId, userService.GetUsersInRoom(roomId)))]
    {
      var usersInRoom := userService.GetUsersInRoom(roomId);
      var message := SystemRoster(roomId, usersInRoom);
      broker.ConvertAndSend(RoomTopic(roomId), message);
    }

    /** addUser(message, roomId): remember who joined which room in the
        session, add the user to the room, announce the join and then the
        new member list. */
    method AddUser(message: ChatMessage, roomId: string, session: SessionAttributes?)
      requires message.sender.Some?
      modifies session, userService, broker
      ensures session != null ==>
                session.entries == old(session.entries)["username" := message.sender.value]["roomId" := roomId]
      ensures userService.roomUsers == WithUser(old(userService.roomUsers), roomId, message.sender.value)
      ensures message.sender.value in userService.GetUsersInRoom(roomId)
      ensures broker.sent == old(broker.sent) + [
                (RoomTopic(roomId), JoinNotice(message, roomId, message.sender.value)),
                (RoomTopic(roomId), SystemRoster(roomId, old(userService.GetUsersInRoom(roomId)) + {message.sender.value}))]
    {
      var username := message.sender.value;
      if session != null {
        session.entries := session.entries["username" := username];
        session.entries := session.entries["roomId" := roomId];
      }
      var _ := userService.AddUserToRoom(roomId, username);
      var joined := JoinNotice(message, roomId, username);
      broker.ConvertAndSend(RoomTopic(roomId), joined);
      BroadcastUserList(roomId);
    }

    /** sendMessage(message, roomId) at time `now`. A message that fails the
        cooldown is dropped without a trace; an accepted one records the
        time (unless the sender moderates the room), is saved, and is
        broadcast to the room with its room id set. */
    method SendMessage(message: ChatMessage, roomId: string, now: int)
      modifies this, repository, broker
      ensures old(IsModerator(message.sender, Some(roomId))) ==>
                old(Accepts(message, roomId, now)) && lastMessageTimes == old(lastMessageTimes)
      ensures lastMessageTimes ==
                if old(Accepts(message, roomId, now)) && !old(IsModerator(message.sender, Some(roomId)))
                then old(lastMessageTimes)[(message.sender, roomId) := now]
                else old(lastMessageTimes)
      ensures repository.saved ==
                old(repository.saved) + (if old(Accepts(message, roomId, now)) then [Persisted(message, now)] else [])
      ensures broker.sent ==
                old(broker.sent) + (if old(Accepts(message, roomId, now))
                                    then [(RoomTopic(roomId), message.(roomId := Some(roomId)))] else [])
    {
      var sender := message.sender;
      var moderator := IsModerator(sender, Some(roomId));
      if !moderator {
        var key := (sender, roomId);
        if key in lastMessageTimes {
          var secondsSinceLastMessage := SecondsBetween(lastMessageTimes[key], now);
          if secondsSinceLastMessage < ChatCooldownSeconds {
            return;
          }
        }
        lastMessageTimes := lastMessageTimes[key := now];
      }
      var outgoing := message.(roomId := Some(roomId));
      repository.Save(Persisted(outgoing, now));
      broker.ConvertAndSend(RoomTopic(roomId), outgoing);
    }

    /** The controller's disconnect listener: when the session names a user
        and a room, remove the user, and only if that changed the room
        announce the departure and the new member list. */
    method HandleWebSocketDisconnect(session: SessionAttributes?)
      modifies userService, broker
      ensures DisconnectContext(session).None? ==>
                userService.roomUsers == old(userService.roomUsers) && broker.sent == old(broker.sent)
      ensures DisconnectContext(session).Some? ==>
                var (username, roomId) := DisconnectContext(session).value;
                var before := old(userService.GetUsersInRoom(roomId));
                && userService.roomUsers == WithoutUser(old(userService.roomUsers), roomId, username)
                && broker.sent == old(broker.sent) + (
                     if username in before
                     then [(RoomTopic(roomId), LeaveNotice(roomId, username)),
                           (RoomTopic(roomId), SystemRoster(roomId, before - {username}))]
                     else [])
    {
      var context := DisconnectContext(session);
      if context.Some? {
        var (username, roomId) := context.value;
        var removed := userService.RemoveUserFromRoom(roomId, username);
        if removed {
          broker.ConvertAndSend(RoomTopic(roomId), LeaveNotice(roomId, username));
          BroadcastUserList(roomId);
        }
      }
    }
  }
}
