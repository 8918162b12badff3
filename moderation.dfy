/** The kick protocol (ChatAdminService.java): a room owner removes a
    member. The target is told first, on its private queue; then the room;
    then the target leaves the presence set; then the room gets the new
    member list. */
module Moderation {
  import opened Common
  import opened Messages
  import opened Collaborators
  import opened Presence

  /** The private KICK notice to the target: names the room and the kicker. */
  function KickNotice(roomId: string, kicker: string): (m: ChatMessage)
    ensures m.msgType == Some(Kick) && m.roomId == Some(roomId) && m.sender == Some("SYSTEM")
    ensures m.content.Some? && Mentions(m.content.value, roomId) && Mentions(m.content.value, kicker)
  {
    var text := "당신은 채팅방 '" + roomId + "' 에서 강퇴되었습니다. (관리자: " + kicker + ")";
    MentionsInMiddle("당신은 채팅방 '", roomId, "' 에서 강퇴되었습니다. (관리자: " + kicker + ")");
    MentionsInMiddle("당신은 채팅방 '" + roomId + "' 에서 강퇴되었습니다. (관리자: ", kicker, ")");
    assert text == "당신은 채팅방 '" + roomId + ("' 에서 강퇴되었습니다. (관리자: " + kicker + ")");
    Blank.(msgType := Some(Kick), roomId := Some(roomId), sender := Some("SYSTEM"), content := Some(text))
  }

  /** The room-wide SYSTEM notice: names the target and the kicker. */
  function KickAnnouncement(roomId: string, kicker: string, target: string): (m: ChatMessage)
    ensures m.msgType == Some(System) && m.roomId == Some(roomId) && m.sender == Some("SYSTEM")
    ensures m.content.Some? && Mentions(m.content.value, target) && Mentions(m.content.value, kicker)
  {
    var text := target + " 님이 " + kicker + " 님에 의해 강퇴되었습니다.";
    MentionsInMiddle([], target, " 님이 " + kicker + " 님에 의해 강퇴되었습니다.");
    assert [] + target + (" 님이 " + kicker + " 님에 의해 강퇴되었습니다.") == text;
    MentionsInMiddle(target + " 님이 ", kicker, " 님에 의해 강퇴되었습니다.");
    Blank.(msgType := Some(System), roomId := Some(roomId), sender := Some("SYSTEM"), content := Some(text))
  }

  /** Whether kickUserFromRoom throws before doing anything: a self-kick,
      or a target who is not in the room. Both are IllegalArgumentException. */
  function KickRefusal(members: set<string>, kicker: string, target: string): (o: Outcome)
    ensures o.Fail? <==> kicker == target || target !in members
    ensures o.Fail? ==> o.error == IllegalArgument
  {
    if kicker == target then Fail(IllegalArgument)
    else if target !in members then Fail(IllegalArgument)
    else Pass
  }

  /** The three messages a successful kick sends, in order. */
  function KickSends(roomId: string, kicker: string, target: string, remaining: set<string>)
    : (s: seq<(Destination, ChatMessage)>)
    ensures |s| == 3
    ensures s[0].0 == UserQueue(target, PrivateQueue) && s[0].1.msgType == Some(Kick)
    ensures s[1].0 == RoomTopic(roomId) && s[1].1.msgType == Some(System)
    ensures s[2].0 == RoomTopic(roomId) && s[2].1.msgType == Some(UserListUpdate)
    ensures s[2].1.users == Some(remaining) && s[2].1.userCount == |remaining|
    ensures forall i :: 0 <= i < |s| ==> s[i].1.roomId == Some(roomId)
  {
    [(UserQueue(target, PrivateQueue), KickNotice(roomId, kicker)),
     (RoomTopic(roomId), KickAnnouncement(roomId, kicker, target)),
     (RoomTopic(roomId), Roster(roomId, remaining))]
  }

  /** After a kick of a present member, the roster lists exactly the others,
      and their number is one less than before. */
  lemma KickRosterShrinks(roomId: string, kicker: string, target: string, members: set<string>)
    requires target in members
    ensures var s := KickSends(roomId, kicker, target, members - {target});
            && s[2].1.users == Some(members - {target}) && target !in s[2].1.users.value
            && s[2].1.userCount == |members| - 1
  {
    // Removing a present member from a finite set lowers its size by one.
  }

  /** ChatAdminService */
  class ChatAdminService {
    const broker: Broker
    const userService: Registry

    constructor (broker: Broker, userService: Registry)
      ensures this.broker == broker && this.userService == userService
    {
      this.broker := broker;
      this.userService := userService;
    }

    /** kickUserFromRoom(roomId, kickerUsername, usernameToKick). Whether
        the kicker owns the room is checked by the caller, not here. */
    method KickUserFromRoom(roomId: string, kicker: string, target: string) returns (outcome: Outcome)
      modifies broker, userService
      ensures outcome == KickRefusal(old(userService.GetUsersInRoom(roomId)), kicker, target)
      ensures outcome.Fail? ==>
                broker.sent == old(broker.sent) && userService.roomUsers == old(userService.roomUsers)
      ensures outcome.Pass? ==>
                && userService.roomUsers == WithoutUser(old(userService.roomUsers), roomId, target)
                && userService.GetUsersInRoom(roomId) == old(userService.GetUsersInRoom(roomId)) - {target}
                && broker.sent == old(broker.sent)
                                  + KickSends(roomId, kicker, target, old(userService.GetUsersInRoom(roomId)) - {target})
    {
      if kicker == target {
        return Fail(IllegalArgument);
      }
      if target !in userService.GetUsersInRoom(roomId) {
        return Fail(IllegalArgument);
      }
      broker.ConvertAndSendToUser(target, PrivateQueue, KickNotice(roomId, kicker));
      broker.ConvertAndSend(RoomTopic(roomId), KickAnnouncement(roomId, kicker, target));
      var _ := userService.RemoveUserFromRoom(roomId, target);
      var currentUsersInRoom := userService.GetUsersInRoom(roomId);
      broker.ConvertAndSend(RoomTopic(roomId), Roster(roomId, currentUsersInRoom));
      outcome := Pass;
    }
  }
}
