/**
 * WebSocketHandler: the WebSocket endpoint. On connect it reads `userId`
 * (required) and `chatRoomId` (optional) from the URI query and registers
 * the session; on each text frame it resolves the room, the receiver and
 * the text and hands them to the message service; on close it unregisters
 * the user.
 *
 * The query is the query component of the URI (section 3.4 of RFC 3986)
 * as `URI.getQuery` returns it, already percent-decoded; it is split
 * naively on `&`. Jackson's parse of a frame is a parameter (`Parsed`).
 */
module WebSocketHandler {
  import opened JavaLang
  import opened SessionManager

  /** The session's URI as far as the handler looks at it: its query, which may be null. */
  datatype Uri = Uri(query: Option<string>)

  /** Why `extractUserId` throws an IllegalArgumentException. */
  datatype UserIdError = NullUri | NoUserIdParam | EmptyUserId | InvalidNumber

  datatype Extracted = UserId(id: int) | Rejected(error: UserIdError)

  /** The exception message for each rejection. */
  function ErrorMessage(e: UserIdError): string
  {
    match e
    case NullUri => "WebSocket URI is null"
    case NoUserIdParam => "userId is required in query parameter. Format: ws://host/chat?userId=X&chatRoomId=Y"
    case EmptyUserId => "userId value is empty"
    case InvalidNumber => "userId must be a valid number"
  }

  /** The index of the first parameter that starts with `prefix`, or `|params|` when none does. */
  function FirstWithPrefix(params: seq<string>, prefix: string): (k: nat)
    ensures k <= |params|
    ensures k < |params| ==> StartsWith(params[k], prefix)
    ensures forall j :: 0 <= j < k ==> !StartsWith(params[j], prefix)
  {
    if |params| == 0 then 0
    else if StartsWith(params[0], prefix) then 0
    else 1 + FirstWithPrefix(params[1..], prefix)
  }

  /**
   * The text after `name=` in the first `&`-separated parameter that
   * starts with `name=`; `None` for a null or empty query or when no
   * parameter does.
   */
  function QueryParam(query: Option<string>, name: string): (v: Option<string>)
    ensures query.None? || query.value == [] ==> v.None?
    ensures query.Some? && query.value != [] ==>
      var params := Split(query.value, '&');
      var k := FirstWithPrefix(params, name + "=");
      v == if k < |params| then Some(params[k][|name| + 1..]) else None
  {
    if query.None? || query.value == [] then None
    else
      var params := Split(query.value, '&');
      var k := FirstWithPrefix(params, name + "=");
      if k < |params| then Some(params[k][|name| + 1..]) else None
  }

  /** `extractUserId`: the `userId` parameter as a `long`, or the reason it is rejected. */
  function ExtractUserId(uri: Option<Uri>): (r: Extracted)
    ensures uri.None? <==> r == Rejected(NullUri)
    ensures r == Rejected(NoUserIdParam) <==> uri.Some? && QueryParam(uri.value.query, "userId").None?
    ensures r == Rejected(EmptyUserId) <==> uri.Some? && QueryParam(uri.value.query, "userId") == Some("")
    ensures r == Rejected(InvalidNumber) <==>
      uri.Some? && QueryParam(uri.value.query, "userId").Some? && QueryParam(uri.value.query, "userId").value != ""
      && ParseLong(QueryParam(uri.value.query, "userId").value).None?
    ensures r.UserId? ==> (uri.Some? && IsLong(r.id)
      && ParseLong(QueryParam(uri.value.query, "userId").value) == Some(r.id))
  {
    if uri.None? then Rejected(NullUri)
    else
      match QueryParam(uri.value.query, "userId")
      case None => Rejected(NoUserIdParam)
      case Some(text) =>
        if text == "" then Rejected(EmptyUserId)
        else
          match ParseLong(text)
          case None => Rejected(InvalidNumber)
          case Some(n) => UserId(n)
  }

  /** `extractChatRoomId`: the `chatRoomId` parameter as a `long`, or null whatever goes wrong. */
  function ExtractChatRoomId(uri: Option<Uri>): (r: Option<int>)
    ensures uri.None? ==> r.None?
    ensures r.Some? <==> (uri.Some? && QueryParam(uri.value.query, "chatRoomId").Some?
      && ParseLong(QueryParam(uri.value.query, "chatRoomId").value).Some?)
    ensures r.Some? ==> IsLong(r.value) && ParseLong(QueryParam(uri.value.query, "chatRoomId").value) == r
  {
    if uri.None? then None
    else
      match QueryParam(uri.value.query, "chatRoomId")
      case None => None
      case Some(text) => if text == "" then None else ParseLong(text)
  }

  /** The query a client is told to connect with: `userId=X` and, optionally, `&chatRoomId=Y`. */
  function ConnectQuery(userId: int, chatRoomId: Option<int>): string
  {
    Join(ConnectParams(userId, chatRoomId), '&')
  }

  function ConnectParams(userId: int, chatRoomId: Option<int>): (params: seq<string>)
    ensures |params| > 0 && params[0] == "userId=" + Show(userId)
    ensures forall i :: 0 <= i < |params| ==> '&' !in params[i]
  {
    ParamHasNoAmpersand("userId", userId);
    if chatRoomId.Some? then
      ParamHasNoAmpersand("chatRoomId", chatRoomId.value);
      ["userId=" + Show(userId), "chatRoomId=" + Show(chatRoomId.value)]
    else ["userId=" + Show(userId)]
  }

  /** A `name=n` parameter holds no `&` when the name holds none. */
  lemma ParamHasNoAmpersand(name: string, n: int)
    requires '&' !in name
    ensures '&' !in name + "=" + Show(n)
  {
    var p := name + "=" + Show(n);
    ShowHasNoChar(n, '&');
    forall i | 0 <= i < |p| ensures p[i] != '&' {
      if i > |name| { assert p[i] == Show(n)[i - |name| - 1]; }
    }
  }

  /** The value of the first `name=` parameter of a query joined from `params`. */
  lemma QueryParamOfJoin(params: seq<string>, name: string, k: nat, n: int)
    requires |params| > 0 && forall i :: 0 <= i < |params| ==> '&' !in params[i]
    requires k < |params| && params[k] == name + "=" + Show(n)
    requires forall j :: 0 <= j < k ==> !StartsWith(params[j], name + "=")
    ensures QueryParam(Some(Join(params, '&')), name) == Some(Show(n))
  {
    SplitJoin(params, '&');
    assert Join(params, '&') != [] by {
      assert Split([], '&') == [[]];
      assert |params[k]| > 0;
    }
    assert StartsWith(params[k], name + "=");
    assert FirstWithPrefix(params, name + "=") == k;
    assert params[k] == (name + "=") + Show(n);
  }

  /** The two extractors applied to a query whose `userId` and `chatRoomId` values are known. */
  lemma ExtractFromQuery(q: string, userId: int, chatRoomId: Option<int>)
    requires IsLong(userId) && (chatRoomId.Some? ==> IsLong(chatRoomId.value))
    requires QueryParam(Some(q), "userId") == Some(Show(userId))
    requires chatRoomId.Some? ==> QueryParam(Some(q), "chatRoomId") == Some(Show(chatRoomId.value))
    requires chatRoomId.None? ==> QueryParam(Some(q), "chatRoomId").None?
    ensures ExtractUserId(Some(Uri(Some(q)))) == UserId(userId)
    ensures ExtractChatRoomId(Some(Uri(Some(q)))) == chatRoomId
  {
    ParseShowRoundTrip(userId);
    if chatRoomId.Some? {
      ParseShowRoundTrip(chatRoomId.value);
    }
  }

  /** The documented query names its user. */
  lemma ConnectQueryUser(userId: int, chatRoomId: Option<int>)
    ensures QueryParam(Some(ConnectQuery(userId, chatRoomId)), "userId") == Some(Show(userId))
  {
    QueryParamOfJoin(ConnectParams(userId, chatRoomId), "userId", 0, userId);
  }

  /** `userId=X&chatRoomId=Y` names the room. */
  lemma ConnectQueryRoom(userId: int, chatRoomId: int)
    ensures QueryParam(Some(ConnectQuery(userId, Some(chatRoomId))), "chatRoomId") == Some(Show(chatRoomId))
  {
    var params := ConnectParams(userId, Some(chatRoomId));
    assert !StartsWith(params[0], "chatRoomId=") by { assert params[0][0] != "chatRoomId="[0]; }
    QueryParamOfJoin(params, "chatRoomId", 1, chatRoomId);
  }

  /** `userId=X` names no room. */
  lemma ConnectQueryNoRoom(userId: int)
    ensures QueryParam(Some(ConnectQuery(userId, None)), "chatRoomId").None?
  {
    var params := ConnectParams(userId, None);
    assert !StartsWith(params[0], "chatRoomId=") by { assert params[0][0] != "chatRoomId="[0]; }
    SplitJoin(params, '&');
  }

  /**
   * A query in the documented format gives back the user and the room it
   * was built from.
   */
  lemma ConnectQueryRoundTrip(userId: int, chatRoomId: Option<int>)
    requires IsLong(userId) && (chatRoomId.Some? ==> IsLong(chatRoomId.value))
    ensures ExtractUserId(Some(Uri(Some(ConnectQuery(userId, chatRoomId))))) == UserId(userId)
    ensures ExtractChatRoomId(Some(Uri(Some(ConnectQuery(userId, chatRoomId))))) == chatRoomId
  {
    ConnectQueryUser(userId, chatRoomId);
    if chatRoomId.Some? {
      ConnectQueryRoom(userId, chatRoomId.value);
    } else {
      ConnectQueryNoRoom(userId);
    }
    ExtractFromQuery(ConnectQuery(userId, chatRoomId), userId, chatRoomId);
  }

  // ---------------------------------------------------------------------
  // Text frames

  /**
   * Jackson's `readValue(payload, Map.class)`: not JSON at all (a
   * JsonParseException), JSON that is not an object (any other exception
   * or a null map), or an object.
   */
  datatype Parsed = NotJson | NotAnObject | Object(fields: map<string, Value>)

  /** What the frame resolves to once the room is known, or why it is not sent on. */
  datatype Outcome =
    | Failure
    | MissingRoom
    | Deliver(chatRoomId: int, receiverId: Option<int>, content: string)

  /** The outcome, and the room the frame stores in the session (`None`: nothing stored). */
  datatype Resolution = Resolution(storeRoom: Option<int>, outcome: Outcome)

  /** `containsKey(k) && get(k) != null`. */
  predicate Present(fields: map<string, Value>, k: string)
  {
    k in fields && fields[k] != VNull
  }

  /**
   * The field resolution of `handleTextMessage`, from the session's room
   * (`sessionRoom`), the frame text and its parse. The text is the
   * `content` field when there is one (a null one is a
   * NullPointerException), otherwise the whole frame; the room is the
   * session's, or else the frame's `chatRoomId` (stored in the session as
   * soon as it parses); the receiver is the frame's `receiverId`. An
   * unparsable number is a NumberFormatException; every exception is a
   * `Failure`.
   */
  function Resolve(sessionRoom: Option<int>, text: string, parsed: Parsed): (r: Resolution)
    ensures sessionRoom.Some? ==> r.storeRoom.None? && (r.outcome.Deliver? ==> r.outcome.chatRoomId == sessionRoom.value)
    ensures r.storeRoom.Some? ==> (sessionRoom.None? && parsed.Object? && Present(parsed.fields, "chatRoomId")
      && ParseLong(Render(parsed.fields["chatRoomId"])) == r.storeRoom)
    ensures r.outcome.Deliver? && sessionRoom.None? ==> r.storeRoom == Some(r.outcome.chatRoomId)
    ensures r.outcome.Deliver? ==> (r.outcome.content ==
      if parsed.Object? && "content" in parsed.fields then Render(parsed.fields["content"]) else text)
    ensures r.outcome.Deliver? ==>
      r.outcome.receiverId == if parsed.Object? && Present(parsed.fields, "receiverId")
                              then ParseLong(Render(parsed.fields["receiverId"])) else None
    ensures r.outcome.MissingRoom? <==>
      sessionRoom.None? && (parsed.NotJson? || (parsed.Object? && !Present(parsed.fields, "chatRoomId")
        && !(("content" in parsed.fields && parsed.fields["content"] == VNull))
        && !(Present(parsed.fields, "receiverId") && ParseLong(Render(parsed.fields["receiverId"])).None?)))
    ensures parsed.NotJson? ==> r.storeRoom.None? && (r.outcome.Deliver? || r.outcome.MissingRoom?)
  {
    match parsed
    case NotAnObject => Resolution(None, Failure)
    case NotJson =>
      Resolution(None, if sessionRoom.None? then MissingRoom else Deliver(sessionRoom.value, None, text))
    case Object(fields) =>
      if "content" in fields && fields["content"] == VNull then Resolution(None, Failure)
      else
        var content := if "content" in fields then Render(fields["content"]) else text;
        var frameRoom := if sessionRoom.None? && Present(fields, "chatRoomId")
                         then Some(ParseLong(Render(fields["chatRoomId"]))) else None;
        if frameRoom == Some(None) then Resolution(None, Failure)
        else
          var storeRoom := if frameRoom.Some? then frameRoom.value else None;
          var room := if sessionRoom.Some? then sessionRoom else storeRoom;
          if Present(fields, "receiverId") && ParseLong(Render(fields["receiverId"])).None? then
            Resolution(storeRoom, Failure)
          else
            var receiverId := if Present(fields, "receiverId") then ParseLong(Render(fields["receiverId"])) else None;
            Resolution(storeRoom, if room.None? then MissingRoom else Deliver(room.value, receiverId, content))
  }

  /** Once a session has a room, no later frame can change it or be refused for lacking one. */
  lemma RoomIsSticky(room: int, text: string, parsed: Parsed)
    ensures Resolve(Some(room), text, parsed).storeRoom.None?
    ensures !Resolve(Some(room), text, parsed).outcome.MissingRoom?
    ensures Resolve(Some(room), text, parsed).outcome.Deliver? ==> Resolve(Some(room), text, parsed).outcome.chatRoomId == room
  {
  }

  /** A plain-text frame is the message text itself, sent to the session's room. */
  lemma PlainTextFrame(sessionRoom: Option<int>, text: string)
    ensures sessionRoom.Some? ==> Resolve(sessionRoom, text, NotJson) == Resolution(None, Deliver(sessionRoom.value, None, text))
    ensures sessionRoom.None? ==> Resolve(sessionRoom, text, NotJson) == Resolution(None, MissingRoom)
  {
  }

  const ROOM_REQUIRED_FRAME: string :=
    "{\"error\": \"chatRoomId is required. Connect with ?chatRoomId=X or include in first message\"}"
  const FAILED_FRAME: string := "{\"error\": \"Failed to process message\"}"

  /** Spring's `CloseStatus`: a code and a reason. */
  datatype CloseStatus = CloseStatus(code: int, reason: string)
  const BAD_DATA: int := 1007
  const SERVER_ERROR: int := 1011

  /** A call of `messageService.sendMessageViaWebSocket`. */
  datatype ServiceCall = ServiceCall(senderId: Option<int>, receiverId: Option<int>, chatRoomId: int, content: string)

  /** A WebSocket session: its URI, the two attributes the handler keeps, and what was written to it. */
  class WsSession {
    const id: int
    const uri: Option<Uri>
    var userIdAttr: Option<int>
    var chatRoomIdAttr: Option<int>
    /** Text frames written to the client, oldest first. */
    var outbox: seq<string>
    var closeStatus: Option<CloseStatus>

    constructor (id: int, uri: Option<Uri>)
      ensures this.id == id && this.uri == uri
      ensures userIdAttr.None? && chatRoomIdAttr.None? && outbox == [] && closeStatus.None?
    {
      this.id := id;
      this.uri := uri;
      userIdAttr := None;
      chatRoomIdAttr := None;
      outbox := [];
      closeStatus := None;
    }
  }

  class WebSocketHandler {
    const sessions: SessionManager
    /** Calls made to the message service, oldest first. */
    var serviceCalls: seq<ServiceCall>

    constructor (sessions: SessionManager)
      ensures this.sessions == sessions && serviceCalls == []
    {
      this.sessions := sessions;
      serviceCalls := [];
    }

    /**
     * `afterConnectionEstablished`: store the attributes and register the
     * session, or close it with BAD_DATA and rethrow (`thrown`) when the
     * user id is rejected. `directoryUp` is passed on to `addSession`.
     */
    method AfterConnectionEstablished(session: WsSession, directoryUp: bool) returns (thrown: Option<UserIdError>)
      modifies session, sessions, sessions.directory
      ensures ExtractUserId(session.uri).Rejected? ==>
        && thrown == Some(ExtractUserId(session.uri).error)
        && session.closeStatus == Some(CloseStatus(BAD_DATA, "Invalid parameters: " + ErrorMessage(thrown.value)))
        && session.userIdAttr == old(session.userIdAttr) && session.chatRoomIdAttr == old(session.chatRoomIdAttr)
        && session.outbox == old(session.outbox)
        && sessions.Reg() == old(sessions.Reg()) && sessions.directory.entries == old(sessions.directory.entries)
        && sessions.nextLock == old(sessions.nextLock) && sessions.sent == old(sessions.sent)
      ensures ExtractUserId(session.uri).UserId? ==>
        var userId := ExtractUserId(session.uri).id;
        && thrown.None?
        && session.userIdAttr == Some(userId)
        && session.chatRoomIdAttr == (if ExtractChatRoomId(session.uri).Some? then ExtractChatRoomId(session.uri)
                                      else old(session.chatRoomIdAttr))
        && session.closeStatus == old(session.closeStatus) && session.outbox == old(session.outbox)
        && sessions.userSessions == old(sessions.userSessions)[userId := Session(session.id, true)]
        && sessions.sessionLocks == (if userId in old(sessions.sessionLocks) then old(sessions.sessionLocks)
                                     else old(sessions.sessionLocks)[userId := old(sessions.nextLock)])
        && sessions.nextLock == old(sessions.nextLock) + (if userId in old(sessions.sessionLocks) then 0 else 1)
        && sessions.directory.entries == (if directoryUp then old(sessions.directory.entries)[userId := sessions.serverAddress]
                                          else old(sessions.directory.entries))
        && sessions.sent == old(sessions.sent)
        && sessions.IsUserConnected(userId)
        && (directoryUp ==> sessions.directory.Lookup(userId) == Some(sessions.serverAddress))
        && (old(sessions.Valid()) ==> sessions.Valid())
    {
      var extracted := ExtractUserId(session.uri);
      if extracted.Rejected? {
        session.closeStatus := Some(CloseStatus(BAD_DATA, "Invalid parameters: " + ErrorMessage(extracted.error)));
        return Some(extracted.error);
      }
      var userId := extracted.id;
      var chatRoomId := ExtractChatRoomId(session.uri);
      session.userIdAttr := Some(userId);
      if chatRoomId.Some? {
        session.chatRoomIdAttr := chatRoomId;
      }
      sessions.AddSession(userId, Session(session.id, true), directoryUp);
      thrown := None;
    }

    /**
     * `handleTextMessage`. `parsed` is Jackson's reading of `text` and
     * `serviceFails` whether the message service throws; either failure
     * answers with the generic error frame.
     */
    method HandleTextMessage(session: WsSession, text: string, parsed: Parsed, serviceFails: bool)
      modifies this, session
      ensures var r := Resolve(old(session.chatRoomIdAttr), text, parsed);
        && session.chatRoomIdAttr == (if r.storeRoom.Some? then r.storeRoom else old(session.chatRoomIdAttr))
        && (r.outcome.Failure? ==> session.outbox == old(session.outbox) + [FAILED_FRAME] && serviceCalls == old(serviceCalls))
        && (r.outcome.MissingRoom? ==> session.outbox == old(session.outbox) + [ROOM_REQUIRED_FRAME] && serviceCalls == old(serviceCalls))
        && (r.outcome.Deliver? ==>
              && serviceCalls == old(serviceCalls) + [ServiceCall(session.userIdAttr, r.outcome.receiverId, r.outcome.chatRoomId, r.outcome.content)]
              && session.outbox == old(session.outbox) + (if serviceFails then [FAILED_FRAME] else []))
      ensures session.userIdAttr == old(session.userIdAttr) && session.closeStatus == old(session.closeStatus)
    {
      var r := Resolve(session.chatRoomIdAttr, text, parsed);
      if r.storeRoom.Some? {
        session.chatRoomIdAttr := r.storeRoom;
      }
      match r.outcome
      case Failure =>
        session.outbox := session.outbox + [FAILED_FRAME];
      case MissingRoom =>
        session.outbox := session.outbox + [ROOM_REQUIRED_FRAME];
      case Deliver(chatRoomId, receiverId, content) =>
        serviceCalls := serviceCalls + [ServiceCall(session.userIdAttr, receiverId, chatRoomId, content)];
        if serviceFails {
          session.outbox := session.outbox + [FAILED_FRAME];
        }
    }

    /**
     * `afterConnectionClosed`: unregister the user only when the session
     * carries a user id. A directory failure in `removeSession` propagates
     * (`raised`).
     */
    method AfterConnectionClosed(session: WsSession, directoryUp: bool) returns (raised: bool)
      modifies sessions, sessions.directory
      ensures session.userIdAttr.None? ==>
        sessions.Reg() == old(sessions.Reg()) && sessions.directory.entries == old(sessions.directory.entries)
        && !raised
      ensures session.userIdAttr.Some? ==>
        var userId := session.userIdAttr.value;
        && sessions.userSessions == old(sessions.userSessions) - {userId}
        && sessions.sessionLocks == old(sessions.sessionLocks) - {userId}
        && sessions.directory.entries == (if directoryUp then old(sessions.directory.entries) - {userId}
                                          else old(sessions.directory.entries))
        && raised == !directoryUp
        && !sessions.IsUserConnected(userId)
      ensures old(sessions.Valid()) ==> sessions.Valid()
      ensures sessions.sent == old(sessions.sent) && sessions.nextLock == old(sessions.nextLock)
    {
      raised := false;
      if session.userIdAttr.Some? {
        raised := sessions.RemoveSession(session.userIdAttr.value, directoryUp);
      }
    }
  }
}
