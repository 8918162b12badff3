/** The message shapes exchanged over the room topics and the private queue
    (ChatMessage.java) and the row saved for an accepted chat message
    (PersistedChatMessage.java). */
module Messages {
  import opened Common

  /** ChatMessage.MessageType. The enum in ChatMessage.java lists the first
      four values; the kick protocol also sends KICK and SYSTEM, so both are
      part of the closed set here. */
  datatype MessageType = Chat | Join | Leave | UserListUpdate | Kick | System

  /** A ChatMessage object. Every reference field may be null in Java and is
      an Option here; `userCount` is a primitive int whose default is 0. The
      `users` set is a value snapshot, not the live set of the registry. */
  datatype ChatMessage = ChatMessage(
    sender: Option<string>,
    content: Option<string>,
    msgType: Option<MessageType>,
    roomId: Option<string>,
    users: Option<set<string>>,
    userCount: int)

  /** `new ChatMessage()`: every field unset. */
  const Blank: ChatMessage := ChatMessage(None, None, None, None, None, 0)

  /** The stored form of an accepted chat message. */
  datatype PersistedChatMessage = PersistedChatMessage(
    sender: Option<string>,
    content: Option<string>,
    messageType: MessageType,
    timestamp: int)

  const JoinSuffix: string := " 님이 입장했습니다."
  const LeaveSuffix: string := " 님이 퇴장했습니다."

  /** The LEAVE notice both disconnect listeners build: sent in the name of
      the departing user, not of the system. */
  function LeaveNotice(roomId: string, username: string): (m: ChatMessage)
    ensures m.msgType == Some(Leave) && m.sender == Some(username) && m.roomId == Some(roomId)
    ensures m.content.Some? && Mentions(m.content.value, username)
    ensures m.users.None?
  {
    MentionsInMiddle([], username, LeaveSuffix);
    assert [] + username + LeaveSuffix == username + LeaveSuffix;
    Blank.(msgType := Some(Leave), sender := Some(username),
           content := Some(username + LeaveSuffix), roomId := Some(roomId))
  }

  /** The USER_LIST_UPDATE that the disconnect listener and the kick
      protocol build: no sender and no content, only the member set and its
      size. */
  function Roster(roomId: string, users: set<string>): (m: ChatMessage)
    ensures m.msgType == Some(UserListUpdate) && m.roomId == Some(roomId)
    ensures m.users == Some(users) && m.userCount == |users|
    ensures m.sender.None? && m.content.None?
  {
    Blank.(msgType := Some(UserListUpdate), roomId := Some(roomId),
           users := Some(users), userCount := |users|)
  }
}
