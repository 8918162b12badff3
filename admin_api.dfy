/** The kick endpoint (ChatRoomAdminController.java): a chain of checks,
    each answering with its own HTTP status, before the kick is delegated;
    the delegated call's outcome decides the final status. */
module AdminApi {
  import opened Common
  import opened Presence
  import opened RoomDirectory
  import opened Moderation

  const Ok: int := 200
  const BadRequest: int := 400
  const Unauthorized: int := 401
  const Forbidden: int := 403
  const NotFound: int := 404
  const InternalServerError: int := 500

  /** The Spring Security principal of the request. */
  datatype Authentication = Authentication(name: string, authenticated: bool)

  /** String.trim(): drop every leading character up to U+0020 ... */
  function TrimStart(s: string): (r: string)
    ensures |r| <= |s| && r == s[|s| - |r|..]
    ensures forall i :: 0 <= i < |s| - |r| ==> s[i] <= ' '
    ensures r != [] ==> r[0] > ' '
    decreases |s|
  {
    if |s| > 0 && s[0] <= ' ' then TrimStart(s[1..]) else s
  }

  /** ... and every trailing one. */
  function TrimEnd(s: string): (r: string)
    ensures |r| <= |s| && r == s[..|r|]
    ensures forall i :: |r| <= i < |s| ==> s[i] <= ' '
    ensures r != [] ==> r[|r| - 1] > ' '
    decreases |s|
  {
    if |s| > 0 && s[|s| - 1] <= ' ' then TrimEnd(s[..|s| - 1]) else s
  }

  /** String.trim(): neither end of the result is at or below U+0020. */
  function Trim(s: string): (r: string)
    ensures |r| <= |s|
    ensures r != [] ==> r[0] > ' ' && r[|r| - 1] > ' '
  {
    TrimEnd(TrimStart(s))
  }

  /** Every character is a space or a control character. */
  predicate AllSpace(s: string)
  {
    forall i :: 0 <= i < |s| ==> s[i] <= ' '
  }

  lemma {:induction false} TrimStartEmpty(s: string)
    ensures TrimStart(s) == [] <==> AllSpace(s)
    ensures TrimStart(s) != [] ==> TrimStart(s)[0] > ' '
    decreases |s|
  {
    if |s| > 0 && s[0] <= ' ' {
      TrimStartEmpty(s[1..]);
      assert AllSpace(s) <==> AllSpace(s[1..]) by {
        if AllSpace(s[1..]) {
          forall i | 0 <= i < |s| ensures s[i] <= ' ' {
            if i > 0 { assert s[i] == s[1..][i - 1]; }
          }
        }
      }
    }
  }

  lemma {:induction false} TrimEndEmpty(s: string)
    ensures TrimEnd(s) == [] <==> AllSpace(s)
    decreases |s|
  {
    if |s| > 0 && s[|s| - 1] <= ' ' {
      TrimEndEmpty(s[..|s| - 1]);
      assert AllSpace(s) <==> AllSpace(s[..|s| - 1]) by {
        if AllSpace(s[..|s| - 1]) {
          forall i | 0 <= i < |s| ensures s[i] <= ' ' {
            if i < |s| - 1 { assert s[i] == s[..|s| - 1][i]; }
          }
        }
      }
    }
  }

  /** `s.trim().isEmpty()` holds exactly when no character of `s` is above
      U+0020. */
  lemma TrimEmptyIffAllSpace(s: string)
    ensures Trim(s) == [] <==> AllSpace(s)
  {
    TrimStartEmpty(s);
    TrimEndEmpty(TrimStart(s));
  }

  /** `usernameToKick == null || usernameToKick.trim().isEmpty()`: the
      target is missing or has no character above U+0020. */
  function IsBlank(target: Option<string>): (b: bool)
    ensures b <==> target.None? || AllSpace(target.value)
  {
    if target.None? then true
    else
      TrimEmptyIffAllSpace(target.value);
      Trim(target.value) == []
  }

  /** What the checks decide: answer with a status, or call the kick
      service with the requester as kicker and the target as given. */
  datatype GateDecision = Respond(status: int) | Delegate(kicker: string, target: string)

  /** The status of a delegated kick: success is 200, an
      IllegalArgumentException is 400, any other exception is 500. */
  function StatusOf(outcome: Outcome): (status: int)
    ensures status == Ok <==> outcome.Pass?
    ensures outcome == Fail(IllegalArgument) ==> status == BadRequest
  {
    match outcome
    case Pass => Ok
    case Fail(IllegalArgument) => BadRequest
    case Fail(IllegalState) => InternalServerError
  }

  class ChatRoomAdminController {
    const adminService: ChatAdminService
    const roomService: ChatRoomService

    constructor (adminService: ChatAdminService, roomService: ChatRoomService)
      ensures this.adminService == adminService && this.roomService == roomService
    {
      this.adminService := adminService;
      this.roomService := roomService;
    }

    /** The guards of kickUser, in their order: authenticated (401), a
        target given (400), the room exists (404), the requester owns it
        (403). */
    function Gate(roomId: string, usernameToKick: Option<string>, auth: Option<Authentication>)
      : (d: GateDecision)
      reads roomService
      ensures (auth.None? || !auth.value.authenticated) ==> d == Respond(Unauthorized)
      ensures (auth.Some? && auth.value.authenticated && IsBlank(usernameToKick))
              ==> d == Respond(BadRequest)
      ensures (auth.Some? && auth.value.authenticated && !IsBlank(usernameToKick)
               && roomId !in roomService.rooms)
              ==> d == Respond(NotFound)
      ensures (auth.Some? && auth.value.authenticated && !IsBlank(usernameToKick)
               && roomId in roomService.rooms && !roomService.IsRoomOwner(roomId, auth.value.name))
              ==> d == Respond(Forbidden)
      ensures d.Delegate? <==>
                auth.Some? && auth.value.authenticated && !IsBlank(usernameToKick)
                && roomId in roomService.rooms && roomService.IsRoomOwner(roomId, auth.value.name)
      ensures d.Delegate? ==> d == Delegate(auth.value.name, usernameToKick.value)
    {
      if auth.None? || !auth.value.authenticated then Respond(Unauthorized)
      else if IsBlank(usernameToKick) then Respond(BadRequest)
      else if roomService.FindChatRoomById(roomId).None? then Respond(NotFound)
      else if !roomService.IsRoomOwner(roomId, auth.value.name) then Respond(Forbidden)
      else Delegate(auth.value.name, usernameToKick.value)
    }

    /** kickUser(roomId, kickRequest, authentication): the status answered.
        Nothing changes unless every guard passes; then the outcome is that
        of the kick protocol. */
    method KickUser(roomId: string, usernameToKick: Option<string>, auth: Option<Authentication>)
      returns (status: int)
      modifies adminService.broker, adminService.userService
      ensures Gate(roomId, usernameToKick, auth).Respond? ==>
                && status == Gate(roomId, usernameToKick, auth).status
                && adminService.broker.sent == old(adminService.broker.sent)
                && adminService.userService.roomUsers == old(adminService.userService.roomUsers)
      ensures Gate(roomId, usernameToKick, auth).Delegate? ==>
                var d := Gate(roomId, usernameToKick, auth);
                var before := old(adminService.userService.GetUsersInRoom(roomId));
                && status == StatusOf(KickRefusal(before, d.kicker, d.target))
                && (KickRefusal(before, d.kicker, d.target).Fail? ==>
                      && adminService.broker.sent == old(adminService.broker.sent)
                      && adminService.userService.roomUsers == old(adminService.userService.roomUsers))
                && (KickRefusal(before, d.kicker, d.target).Pass? ==>
                      && adminService.userService.roomUsers
                         == WithoutUser(old(adminService.userService.roomUsers), roomId, d.target)
                      && adminService.broker.sent
                         == old(adminService.broker.sent) + KickSends(roomId, d.kicker, d.target, before - {d.target}))
      ensures status == Ok <==>
                && Gate(roomId, usernameToKick, auth).Delegate?
                && auth.value.name != usernameToKick.value
                && usernameToKick.value in old(adminService.userService.GetUsersInRoom(roomId))
      ensures status in {Ok, BadRequest, Unauthorized, Forbidden, NotFound}
    {
      var decision := Gate(roomId, usernameToKick, auth);
      match decision {
        case Respond(code) =>
          status := code;
        case Delegate(kicker, target) =>
          var outcome := adminService.KickUserFromRoom(roomId, kicker, target);
          status := StatusOf(outcome);
      }
    }
  }
}
