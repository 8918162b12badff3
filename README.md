# Chat-room coordination core of political_chat_backend, in Dafny

This project models the part of the `political_chat_backend` Spring service that
keeps its chat rooms consistent:

- the in-memory **presence registry**: which usernames are attached to which room;
- the **chat controller**: joining a room, sending a message under a five-second
  per-(sender, room) cooldown that the room owner is exempt from, and the
  controller's own disconnect listener;
- the **kick protocol**: a room owner removes a member;
- the **lifecycle listener**: on disconnect, the user is removed, the departure is
  announced once, and a room is deleted when its owner was the last to leave;
- the **room directory**: categories and rooms, the ownership test, deletion, and the
  bounded retry loop that picks a fresh room id;
- the **kick endpoint**: its chain of guards and the HTTP status of each.

Each Java service becomes a Dafny `class` with the state the service changes:

- `Presence.Registry.roomUsers` is a map from room id to set of usernames.
- `RoomDirectory.ChatRoomService` holds its `rooms` and `categories` repositories as maps.
- `Dispatch.ChatController.lastMessageTimes` is the cooldown table.
- `Collaborators.Broker.sent` records everything the messaging template was asked to
  send, in order.
- `Collaborators.MessageRepository.saved` records every persisted message.

The methods' postconditions tie the new state to value-level functions such as
`Presence.WithUser`, `Presence.WithoutUser`, `Moderation.KickSends` and
`Dispatch.Admits`. Lemmas state what those functions promise:

- joins and leaves undo each other;
- accepted messages of one non-owner sender in one room are at least five seconds apart;
- distinct rooms never share a topic;
- the kick sends exactly three messages, the private one first.

Modelling choices:

- **Time.** Time is a count of milliseconds, passed in as `now`. This is what lets
  `ChronoUnit.SECONDS.between` be modelled exactly: it truncates toward zero, so
  4.999 s counts as 4 s and is still inside the cooldown.
- **Room ids.** `UUID.randomUUID()` is replaced by a parameter `prefixes: nat -> string`.
  `prefixes(k)` is the eight-character prefix drawn on attempt `k`; any function is
  allowed, including one that always returns a taken id.
- **Nulls.** Nullable Java fields and arguments are `Option`. A session without an
  attribute map is a null `SessionAttributes` reference.
- **Message types.** `ChatMessage.MessageType` gets `KICK` and `SYSTEM`, which
  `ChatAdminService.java` uses but `ChatMessage.java` does not declare.

`scenarios.dfy` wires the components together the way the application does: one
registry, one room service and one broker, shared by every controller. The worked scenarios
below are verified against the components' contracts:

- a member leaves;
- the owner leaves an empty room, with the two disconnect listeners in either order,
  and exactly one LEAVE is announced;
- a message inside the cooldown is dropped;
- each guard of the kick endpoint refuses;
- a kick succeeds.

Two behaviours of the code worth knowing:

- `WebSocketEventListener` applies the deletion rule even when the removal changed
  nothing (`WebSocketEventListener.java:68-85` is outside the `if (removed)` block).
  A room that became empty through an earlier departure or a kick is therefore still
  deleted when its owner's session later disconnects.
- The room-wide notice of a kick has type `SYSTEM`, not `KICK`.

## Model

| member | source | states |
|---|---|---|
| Messages.LeaveNotice | src/main/java/com/example/political_chat_backend/WebSocketEventListener.java:52-56 | The LEAVE notice is typed LEAVE, is sent in the departing user's name, carries the room id and a content naming the user, and carries no member list |
| Messages.Roster | src/main/java/com/example/political_chat_backend/WebSocketEventListener.java:60-64 | The listener's USER_LIST_UPDATE carries exactly the given member set, its size as the count, and no sender or content |
| Collaborators.RoomTopic | src/main/java/com/example/political_chat_backend/ChatController.java:65 | The room topic is `/topic/room/` followed by exactly the room id |
| Collaborators.RoomTopicInjective | src/main/java/com/example/political_chat_backend/ChatController.java:108 | Two rooms share a topic if and only if they are the same room, so a broadcast reaches one room only |
| Collaborators.SessionAttributes.Get | src/main/java/com/example/political_chat_backend/WebSocketEventListener.java:41-42 | An attribute reads as present exactly when the session map holds the key, and then as its value |
| Collaborators.DisconnectContext | src/main/java/com/example/political_chat_backend/WebSocketEventListener.java:38-44 | A disconnect is handled exactly when the session has an attribute map holding both `username` and `roomId`, and it yields those two values |
| Collaborators.Broker.ConvertAndSend | src/main/java/com/example/political_chat_backend/ChatController.java:65 | A send to a topic appends exactly that destination and message to what was sent |
| Collaborators.Broker.ConvertAndSendToUser | src/main/java/com/example/political_chat_backend/ChatAdminService.java:44 | A send to one user appends that user's private destination and the message |
| Collaborators.MessageRepository.Save | src/main/java/com/example/political_chat_backend/ChatController.java:104 | Saving appends exactly the message to what is stored |
| Presence.Registry.GetUsersInRoom | src/main/java/com/example/political_chat_backend/ChatRoomUserService.java:46-48 | A room's members are its stored set, or none for an unknown room |
| Presence.Members | src/main/java/com/example/political_chat_backend/ChatRoomUserService.java:46-48 | An unknown room has no members; a known room has exactly its stored set |
| Presence.WithUser | src/main/java/com/example/political_chat_backend/ChatRoomUserService.java:22-25 | Joining makes the room known, adds exactly the user to its members, and leaves every other room untouched |
| Presence.WithoutUser | src/main/java/com/example/political_chat_backend/ChatRoomUserService.java:33-39 | Leaving removes exactly the user from the room, keeps all room entries (an empty set stays), leaves other rooms untouched, and leaves an unknown room's map unchanged |
| Presence.WithoutUserEverywhere | src/main/java/com/example/political_chat_backend/ChatRoomUserService.java:65-67 | The bulk removal keeps every room entry |
| Presence.WithoutUserEverywhereEffect | src/main/java/com/example/political_chat_backend/ChatRoomUserService.java:65-67 | After the bulk removal the user is in no room, and every other user is in exactly the rooms they were in before |
| Presence.WithoutUserEverywhereIsPerRoom | src/main/java/com/example/political_chat_backend/ChatRoomUserService.java:65-67 | The bulk removal agrees room by room with the single-room removal |
| Presence.JoinThenLeave | src/main/java/com/example/political_chat_backend/ChatRoomUserService.java:22-39 | A new member who joins and then leaves restores the room's set; the map itself is restored when the room was already known |
| Presence.LeaveThenJoin | src/main/java/com/example/political_chat_backend/ChatRoomUserService.java:22-39 | A present member who leaves and joins again restores the map exactly |
| Presence.JoinIdempotent | src/main/java/com/example/political_chat_backend/ChatRoomUserService.java:22-25 | A repeated join changes nothing |
| Presence.Registry.constructor | src/main/java/com/example/political_chat_backend/ChatRoomUserService.java:14 | The registry starts with no rooms |
| Presence.Registry.CountUsersInRoom | src/main/java/com/example/political_chat_backend/ChatRoomUserService.java:55-57 | The count is the size of the room's member set, and it is zero exactly when the room is empty |
| Presence.Registry.AddUserToRoom | src/main/java/com/example/political_chat_backend/ChatRoomUserService.java:22-25 | Returns true if and only if the user was not yet present; the new state is WithUser of the old |
| Presence.Registry.RemoveUserFromRoom | src/main/java/com/example/political_chat_backend/ChatRoomUserService.java:33-39 | Returns true if and only if the user was present; the new state is WithoutUser of the old; an unknown room returns false and changes nothing |
| Presence.Registry.RemoveUserFromAllRooms | src/main/java/com/example/political_chat_backend/ChatRoomUserService.java:65-67 | The loop over every room leaves exactly WithoutUserEverywhere of the old state |
| RoomDirectory.Candidate | src/main/java/com/example/political_chat_backend/ChatRoomService.java:80-83 | The first id is the first drawn prefix; attempt k (from 1) is the k-th drawn prefix, then `-`, then the digit k-1 |
| RoomDirectory.DigitText | src/main/java/com/example/political_chat_backend/ChatRoomService.java:83 | `"-" + attempt` appends exactly the decimal digit of `attempt` |
| RoomDirectory.ChatRoomService.constructor | src/main/java/com/example/political_chat_backend/ChatRoomService.java:30-37 | The service starts with empty repositories and is wired to the given registry |
| RoomDirectory.ChatRoomService.FindChatRoomById | src/main/java/com/example/political_chat_backend/ChatRoomService.java:111-113 | A room is found exactly when its id is stored, and then it is the stored room, whose own id is the one looked up |
| RoomDirectory.ChatRoomService.IsRoomOwner | src/main/java/com/example/political_chat_backend/ChatRoomService.java:150-154 | True if and only if the room exists and its owner is the user; an unknown room has no owner |
| RoomDirectory.ChatRoomService.FindChatRoomDtoById | src/main/java/com/example/political_chat_backend/ChatRoomService.java:121-124 | A view exists exactly for stored rooms; it copies the room's fields and carries the registry's live user count |
| RoomDirectory.ChatRoomService.DeleteRoom | src/main/java/com/example/political_chat_backend/ChatRoomService.java:157-167 | Fails with IllegalArgument if and only if the room is unknown; afterwards exactly that room is gone |
| RoomDirectory.ChatRoomService.CreateCommunityCategory | src/main/java/com/example/political_chat_backend/ChatRoomService.java:43-49 | Fails with IllegalArgument if and only if the id is taken, and then changes nothing; otherwise it stores exactly the new category |
| RoomDirectory.ChatRoomService.PickRoomId | src/main/java/com/example/political_chat_backend/ChatRoomService.java:80-88 | Fails with IllegalState if and only if all six candidates are taken; otherwise it returns the first free candidate, and the first drawn id when that one is free |
| RoomDirectory.ChatRoomService.CreateChatRoom | src/main/java/com/example/political_chat_backend/ChatRoomService.java:76-92 | An unknown category is IllegalArgument, and six taken candidates are IllegalState; each holds if and only if its condition does, and nothing changes on failure. Success happens exactly when the category exists and some candidate is free; it stores a room under the first free id with the given name, category, owner and time |
| Dispatch.SecondsBetween | src/main/java/com/example/political_chat_backend/ChatController.java:83 | The whole seconds elapsed, truncated toward zero in both directions of time |
| Dispatch.Admits | src/main/java/com/example/political_chat_backend/ChatController.java:78-95 | A moderator always passes; anyone else passes if and only if no earlier accepted time is recorded or at least 5000 ms have passed since it |
| Dispatch.KeyText | src/main/java/com/example/political_chat_backend/ChatController.java:81-92 | The Java cooldown key ends in `:` followed by the room id and, for a known sender, starts with the sender's name |
| Dispatch.KeyTextCollides | src/main/java/com/example/political_chat_backend/ChatController.java:81-92 | Distinct (sender, room) pairs can share one text key, and so can a null sender and the user named `null` |
| Dispatch.KeyTextInjective | src/main/java/com/example/political_chat_backend/ChatController.java:81-92 | With a known sender and room ids free of `:`, the text key determines the pair |
| Dispatch.CooldownSpacing | src/main/java/com/example/political_chat_backend/ChatController.java:78-95 | In any run of attempts by one non-owner sender in one room, accepted times are pairwise at least 5000 ms apart. The first one is at least 5000 ms after the previously accepted time, and every accepted time is one of the attempts |
| Dispatch.CooldownScenario | src/main/java/com/example/political_chat_backend/ChatController.java:80-92 | Attempts at t0, t0+1 s and t0+6 s are accepted at t0 and t0+6 s only |
| Dispatch.DropDoesNotResetClock | src/main/java/com/example/political_chat_backend/ChatController.java:84-92 | A dropped attempt does not move the clock: t0, t0+4 s, t0+5 s accept t0 and t0+5 s; 4.999 s after an accepted message is still too early |
| Dispatch.SystemRoster | src/main/java/com/example/political_chat_backend/ChatController.java:140-154 | The controller's USER_LIST_UPDATE is sent by `System` and carries the given member set and its size |
| Dispatch.JoinNotice | src/main/java/com/example/political_chat_backend/ChatController.java:57-59 | The JOIN broadcast is the joiner's own message retyped as JOIN, with the room id set and a content naming the joiner |
| Dispatch.Persisted | src/main/java/com/example/political_chat_backend/ChatController.java:99-103 | The saved record copies sender and content, is stamped with the current time, and defaults a missing type to CHAT |
| Dispatch.ChatController.constructor | src/main/java/com/example/political_chat_backend/ChatController.java:29-41 | The controller starts with an empty cooldown table and is wired to the shared collaborators |
| Dispatch.ChatController.IsModerator | src/main/java/com/example/political_chat_backend/ChatController.java:157-166 | True if and only if both name and room id are given and the user owns that existing room |
| Dispatch.ChatController.Accepts | src/main/java/com/example/political_chat_backend/ChatController.java:78-92 | A message passes when its sender owns the room; otherwise exactly when no time is recorded for its (sender, room) pair or at least 5000 ms have passed since it |
| Dispatch.ChatController.LastAccepted | src/main/java/com/example/political_chat_backend/ChatController.java:81 | A last time is on record exactly when the key is in the cooldown table, and it is the stored time |
| Dispatch.ChatController.BroadcastUserList | src/main/java/com/example/political_chat_backend/ChatController.java:140-154 | Appends exactly one roster of the room's current members to the room topic |
| Dispatch.ChatController.AddUser | src/main/java/com/example/political_chat_backend/ChatController.java:44-67 | Records name and room in the session when it has a map; adds the user; then sends the JOIN notice followed by the roster of the old members plus the joiner |
| Dispatch.ChatController.SendMessage | src/main/java/com/example/political_chat_backend/ChatController.java:70-109 | An owner is always accepted and leaves no cooldown record. Anyone else is accepted per Admits, and their time is recorded only on acceptance. An accepted message is saved and broadcast with its room id set; a dropped one leaves no trace |
| Dispatch.ChatController.HandleWebSocketDisconnect | src/main/java/com/example/political_chat_backend/ChatController.java:112-137 | With a session context the user is removed, and LEAVE plus the roster of the remaining members are sent only if the user was present; without a context nothing changes |
| Moderation.KickNotice | src/main/java/com/example/political_chat_backend/ChatAdminService.java:37-41 | The private notice is typed KICK, is from `SYSTEM`, and names the room and the kicker |
| Moderation.KickAnnouncement | src/main/java/com/example/political_chat_backend/ChatAdminService.java:49-53 | The room notice is typed SYSTEM, is from `SYSTEM`, and names the target and the kicker |
| Moderation.KickRefusal | src/main/java/com/example/political_chat_backend/ChatAdminService.java:27-34 | A kick is refused, with IllegalArgument, if and only if it is a self-kick or the target is not in the room |
| Moderation.KickSends | src/main/java/com/example/political_chat_backend/ChatAdminService.java:36-74 | Exactly three sends, all carrying the room id: KICK to the target's private queue, SYSTEM to the room topic, then USER_LIST_UPDATE to the room topic with the remaining members and their number |
| Moderation.KickRosterShrinks | src/main/java/com/example/political_chat_backend/ChatAdminService.java:36-75 | The roster a kick sends after removing a present target lists the members without the target, with a count one less than before |
| Moderation.ChatAdminService.constructor | src/main/java/com/example/political_chat_backend/ChatAdminService.java:20-24 | Wired to the shared broker and registry |
| Moderation.ChatAdminService.KickUserFromRoom | src/main/java/com/example/political_chat_backend/ChatAdminService.java:26-80 | The outcome is KickRefusal of the old members; a refusal changes nothing; a kick removes exactly the target and appends exactly KickSends, in that order |
| Lifecycle.AbandonedByOwner | src/main/java/com/example/political_chat_backend/WebSocketEventListener.java:69-77 | A room is to be deleted exactly when it exists, the departing user is its owner and no user remains |
| Lifecycle.WebSocketEventListener.constructor | src/main/java/com/example/political_chat_backend/WebSocketEventListener.java:26-33 | Wired to the shared registry, room service and broker |
| Lifecycle.WebSocketEventListener.HandleWebSocketDisconnect | src/main/java/com/example/political_chat_backend/WebSocketEventListener.java:36-93 | Without context nothing changes. Otherwise the user is removed, and LEAVE plus roster are sent if and only if the user was present. The room is deleted if and only if it exists, the user owns it and nobody remains. A non-owner never deletes, and neither does an owner while others remain |
| AdminApi.TrimStart | src/main/java/com/example/political_chat_backend/ChatRoomAdminController.java:47 | The leading part of `trim()`: a suffix of the input whose dropped characters are all at most U+0020 and which starts above U+0020 unless empty |
| AdminApi.TrimEnd | src/main/java/com/example/political_chat_backend/ChatRoomAdminController.java:47 | The trailing part of `trim()`: a prefix of the input whose dropped characters are all at most U+0020 and which ends above U+0020 unless empty |
| AdminApi.Trim | src/main/java/com/example/political_chat_backend/ChatRoomAdminController.java:47 | `trim()`: no longer than the input, and both ends of a non-empty result are above U+0020 |
| AdminApi.TrimStartEmpty | src/main/java/com/example/political_chat_backend/ChatRoomAdminController.java:47 | Stripping leading characters up to U+0020 leaves nothing if and only if every character is at most U+0020 |
| AdminApi.TrimEndEmpty | src/main/java/com/example/political_chat_backend/ChatRoomAdminController.java:47 | The same for trailing characters |
| AdminApi.TrimEmptyIffAllSpace | src/main/java/com/example/political_chat_backend/ChatRoomAdminController.java:47 | `trim().isEmpty()` holds if and only if no character is above U+0020 |
| AdminApi.IsBlank | src/main/java/com/example/political_chat_backend/ChatRoomAdminController.java:47 | The target is blank if and only if it is missing or has no character above U+0020 |
| AdminApi.StatusOf | src/main/java/com/example/political_chat_backend/ChatRoomAdminController.java:62-73 | 200 if and only if the kick succeeded; IllegalArgument maps to 400 |
| AdminApi.ChatRoomAdminController.constructor | src/main/java/com/example/political_chat_backend/ChatRoomAdminController.java:21-25 | Wired to the kick service and the room service |
| AdminApi.ChatRoomAdminController.Gate | src/main/java/com/example/political_chat_backend/ChatRoomAdminController.java:38-59 | Guards in order: no authenticated principal is 401, a blank target 400, an unknown room 404, a requester who is not the owner 403. The kick is delegated, as requester and target, if and only if all four pass |
| AdminApi.ChatRoomAdminController.KickUser | src/main/java/com/example/political_chat_backend/ChatRoomAdminController.java:29-74 | A guard's status changes nothing. A delegated kick answers StatusOf its outcome, with the kick's effect or none. 200 if and only if every guard passes, the target is not the requester, and the target is in the room |

## Left out

- Concurrency: each handler is one atomic step. The thread-safe collections and
  interleaved handlers are not modelled. The order in which Spring runs the two
  disconnect listeners is a parameter of the `OwnerLeavesEmptyRoom` scenario.
- The STOMP transport, message conversion and subscriptions: the broker records
  destination and message and does nothing else.
- `getUsersInRoom` returns the live set in Java, so a roster message sent with it could
  show later changes before it is serialised. The model sends a snapshot.
- JPA: entity identity, lazy loading, `@Transactional` and repository errors. The two
  relations between categories and rooms are a category id on the room.
- `findAllCategories`, `findCategoryById`, `findAllChatRooms` and
  `findChatRoomsByCategoryId` are read-only queries with pagination; they are not part
  of this model.
- `UUID.randomUUID()` is the `prefixes` parameter. The model does not restrict its
  values to eight hexadecimal characters.
- Dispatch.Persisted: the saved record is stamped with the same `now` as the cooldown
  check, while Java reads the clock a second time inside the `PersistedChatMessage`
  constructor; the two clock reads are merged into one.
- `LocalDateTime.now()` is the `now` parameter, in milliseconds; clock resolution and
  time zones are not modelled.
- Dispatch.ChatController.SendMessage: keys the cooldown table by the pair
  (sender, room) rather than by the text `sender + ":" + roomId`. This is the corrected
  behaviour of the finding below; `Dispatch.KeyTextInjective` shows the two agree when
  the sender is present and room ids have no colon.
- Dispatch.ChatController.AddUser: requires a sender. A null sender is not modelled;
  what happens then depends on the framework's session attribute map.
- Java `int` width: counts are unbounded.
- Response bodies, exception messages and logging output. Only statuses and exception
  classes are modelled.
- Authentication: JWT filters, `SecurityConfig` and the STOMP channel interceptor are not
  part of this model. The kick endpoint receives the principal as an optional
  (name, authenticated) pair.
- Presence.Registry.RemoveUserFromAllRooms: the order in which rooms are visited is
  left open; only the final map is stated.
- AdminApi.StatusOf: the 500 branch for exceptions other than IllegalArgument is
  modelled, but no modelled kick reaches it. A null owner, which would throw inside
  `isRoomOwner`, is not modelled.
- `ChatMessage.MessageType` as written has no `KICK` or `SYSTEM`, so
  `ChatAdminService.java` as written would not compile. The model adds both constants.
- Announcements, user accounts and the REST room API are outside the chat core and not
  part of this model.

## Findings

| source | as written | input that shows it | evidently intended | confidence | as-written member | corrected member |
|---|---|---|---|---|---|---|
| src/main/java/com/example/political_chat_backend/ChatController.java:81-92 | the cooldown key is the text `sender + ":" + roomId` | sender `a:b` in room `c`, and sender `a` in room `b:c`, share the key `a:b:c`; a null sender shares the key of the user named `null` | one independent cooldown per (sender, room) pair, as the comment at line 81 says | low: room ids generated by the service contain no colon, but the room id of a message comes from the client's destination; not executed | Dispatch.KeyTextCollides | Dispatch.ChatController.SendMessage |
