/** Stand-ins for the framework objects the chat core calls but does not
    own: the STOMP messaging template, the per-connection session attribute
    map, and the repository that stores accepted chat messages. Each one
    only records what the core hands it. */
module Collaborators {
  import opened Common
  import opened Messages

  /** Where a message goes: a topic path every subscriber of it receives,
      or one user's private destination. */
  datatype Destination =
    | Topic(path: string)
    | UserQueue(user: string, path: string)

  const RoomTopicPrefix: string := "/topic/room/"
  const PrivateQueue: string := "/queue/private"

  /** "/topic/room/" + roomId */
  function RoomTopic(roomId: string): (d: Destination)
    ensures d.Topic? && |d.path| == |RoomTopicPrefix| + |roomId|
    ensures d.path[..|RoomTopicPrefix|] == RoomTopicPrefix && d.path[|RoomTopicPrefix|..] == roomId
  {
    Topic(RoomTopicPrefix + roomId)
  }

  /** Distinct rooms never share a topic, so a broadcast reaches one room only. */
  lemma RoomTopicInjective(r1: string, r2: string)
    ensures RoomTopic(r1) == RoomTopic(r2) <==> r1 == r2
  {
    // Each room id is the path with the common prefix cut off.
  }

  /** SimpMessagingTemplate: every send is appended, in order, to `sent`. */
  class Broker {
    var sent: seq<(Destination, ChatMessage)>

    constructor ()
      ensures sent == []
    {
      sent := [];
    }

    /** convertAndSend(destination, message) */
    method ConvertAndSend(destination: Destination, message: ChatMessage)
      modifies this
      ensures sent == old(sent) + [(destination, message)]
    {
      sent := sent + [(destination, message)];
    }

    /** convertAndSendToUser(user, destination, message) */
    method ConvertAndSendToUser(user: string, destination: string, message: ChatMessage)
      modifies this
      ensures sent == old(sent) + [(UserQueue(user, destination), message)]
    {
      sent := sent + [(UserQueue(user, destination), message)];
    }
  }

  /** The attribute map of one WebSocket session. A session without an
      attribute map is a null reference. Only the two string attributes the
      core stores are modelled; an absent key reads as null. */
  class SessionAttributes {
    var entries: map<string, string>

    constructor (entries: map<string, string>)
      ensures this.entries == entries
    {
      this.entries := entries;
    }

    /** (String) get(key) */
    function Get(key: string): (v: Option<string>)
      reads this
      ensures v.Some? <==> key in entries
      ensures v.Some? ==> v.value == entries[key]
    {
      if key in entries then Some(entries[key]) else None
    }
  }

  /** The (username, roomId) pair a disconnect handler reads back from the
      session: present only when the session has an attribute map and both
      attributes are set. */
  function DisconnectContext(session: SessionAttributes?): (c: Option<(string, string)>)
    reads session
    ensures c.Some? <==> session != null && "username" in session.entries && "roomId" in session.entries
    ensures c.Some? ==> c.value == (session.entries["username"], session.entries["roomId"])
  {
    if session == null then None
    else match (session.Get("username"), session.Get("roomId"))
      case (Some(username), Some(roomId)) => Some((username, roomId))
      case _ => None
  }

  /** PersistedChatMessageRepository: `save` appends. */
  class MessageRepository {
    var saved: seq<PersistedChatMessage>

    constructor ()
      ensures saved == []
    {
      saved := [];
    }

    method Save(message: PersistedChatMessage)
      modifies this
      ensures saved == old(saved) + [message]
    {
      saved := saved + [message];
    }
  }
}
