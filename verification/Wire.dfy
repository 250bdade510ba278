/** Between lines and handlers: which handler a request goes to (server/ChatSession.cc), and the line
    each message is sent as (common/Protocol.cc, server/ChatServer.cc). */
module Wire {
  import opened Json
  import opened JsonRoundTrip
  import opened JsonSignaling
  import opened Calls
  import opened ChatProtocol
  import opened Names
  import opened SignalFraming
  import F = Framing
  import Users
  import R = Rooms

  // What handleRequest does: hand a request to a handler, one of those of ChatProtocol or another, or
  // complain.
  datatype Dispatched = Handle(request: Request) | OtherHandler | UnknownType

  function FieldOrEmpty(fields: JsonObject, key: string): string {
    if key in fields then fields[key] else ""
  }

  function KindText(kind: CallType): string {
    match kind
    case CallInvite => "call_invite"
    case CallAccept => "call_accept"
    case CallReject => "call_reject"
    case CallCancel => "call_cancel"
    case CallTimeout => "call_timeout"
    case CallHangup => "call_hangup"
    case WebrtcOffer => "webrtc_offer"
    case WebrtcAnswer => "webrtc_answer"
    case IceCandidateType => "ice_candidate"
  }

  function PayloadName(kind: CallType): string {
    if kind == IceCandidateType then "candidate" else "sdp"
  }

  function KindFrom(text: string): Option<CallType> {
    if text == "call_invite" then Some(CallInvite)
    else if text == "call_accept" then Some(CallAccept)
    else if text == "call_reject" then Some(CallReject)
    else if text == "call_cancel" then Some(CallCancel)
    else if text == "call_hangup" then Some(CallHangup)
    else if text == "call_timeout" then Some(CallTimeout)
    else if text == "webrtc_offer" then Some(WebrtcOffer)
    else if text == "webrtc_answer" then Some(WebrtcAnswer)
    else if text == "ice_candidate" then Some(IceCandidateType)
    else None
  }

  function CallRequest(fields: JsonObject, kind: CallType): Request {
    Call(kind, FieldOrEmpty(fields, "to"), FieldOrEmpty(fields, "call_id"), FieldOrEmpty(fields, "media"),
         FieldOrEmpty(fields, "reason"), FieldOrEmpty(fields, PayloadName(kind)))
  }

  predicate HasOtherHandler(text: string) {
    text == "users" || text == "private" || text == "room_msg" || text == "history_private" || text == "history_room"
  }

  function Dispatch(fields: JsonObject): Dispatched {
    var text := FieldOrEmpty(fields, "type");
    if text == "login" then Handle(Login(FieldOrEmpty(fields, "username")))
    else if text == "logout" then Handle(Logout)
    else if text == "create_room" then Handle(CreateRoom(FieldOrEmpty(fields, "room")))
    else if text == "join" then Handle(Join(FieldOrEmpty(fields, "room")))
    else if text == "leave" then Handle(Leave(FieldOrEmpty(fields, "room")))
    else if HasOtherHandler(text) then OtherHandler
    else match KindFrom(text)
         case Some(kind) => Handle(CallRequest(fields, kind))
         case None => UnknownType
  }

  lemma KindFromIff(text: string, kind: CallType)
    ensures KindFrom(text) == Some(kind) <==> text == KindText(kind)
  {
    KindTextsDiffer(kind);
  }

  lemma KindTextsDiffer(kind: CallType)
    ensures KindFrom(KindText(kind)) == Some(kind)
    ensures KindText(kind) !in ["login", "logout", "create_room", "join", "leave"] && !HasOtherHandler(KindText(kind))
  {
    var text := KindText(kind);
    match kind
    case CallInvite => assert |text| == 11 && text[5] == 'i';
    case CallAccept => assert |text| == 11 && text[5] == 'a';
    case CallReject => assert |text| == 11 && text[5] == 'r';
    case CallCancel => assert |text| == 11 && text[5] == 'c';
    case CallTimeout => assert |text| == 12 && text[5] == 't';
    case CallHangup => assert |text| == 11 && text[5] == 'h';
    case WebrtcOffer => assert |text| == 12 && text[5] == 'c';
    case WebrtcAnswer => assert |text| == 13 && text[5] == 'c';
    case IceCandidateType => assert |text| == 13 && text[0] == 'i';
  }

  predicate IsKnown(text: string) {
    text in ["login", "logout", "create_room", "join", "leave"] || HasOtherHandler(text)
    || exists kind :: text == KindText(kind)
  }

  /** Each request goes to the one handler its type names, with the fields that handler asks for, absent ones
      empty; and a complaint is made of exactly the types that name none. */
  lemma DispatchMeans(fields: JsonObject)
    ensures var text, d := FieldOrEmpty(fields, "type"), Dispatch(fields);
            && (d.UnknownType? <==> !IsKnown(text))
            && (d.OtherHandler? <==> text in ["users", "private", "room_msg", "history_private", "history_room"])
            && (forall kind :: d.Handle? && d.request.Call? && d.request.kind == kind <==> text == KindText(kind))
            && (forall kind | text == KindText(kind) ::
                  && d.Handle? && d.request.Call?
                  && d.request.target == FieldOrEmpty(fields, "to") && d.request.id == FieldOrEmpty(fields, "call_id")
                  && d.request.media == FieldOrEmpty(fields, "media") && d.request.reason == FieldOrEmpty(fields, "reason")
                  && d.request.payload == FieldOrEmpty(fields, if kind == IceCandidateType then "candidate" else "sdp"))
            && (d.Handle? && d.request.Login? <==> text == "login")
            && (d.Handle? && d.request.Logout? <==> text == "logout")
            && (d.Handle? && d.request.CreateRoom? <==> text == "create_room")
            && (d.Handle? && d.request.Join? <==> text == "join")
            && (d.Handle? && d.request.Leave? <==> text == "leave")
            && (text == "login" ==> d.request.username == FieldOrEmpty(fields, "username"))
            && (text in ["create_room", "join", "leave"] ==> d.request.room == FieldOrEmpty(fields, "room"))
  {
    var text := FieldOrEmpty(fields, "type");
    WordsDiffer();
    OtherWords(text);
    forall kind ensures KindFrom(text) == Some(kind) <==> text == KindText(kind) { KindFromIff(text, kind); }
    forall kind ensures text == KindText(kind) ==> text !in ["login", "logout", "create_room", "join", "leave"] && !HasOtherHandler(text) {
      KindTextsDiffer(kind);
    }
    hide KindFrom, KindText, FieldOrEmpty, HasOtherHandler;
    if text !in ["login", "logout", "create_room", "join", "leave"] && !HasOtherHandler(text) {
      match KindFrom(text)
      case Some(kind) => assert text == KindText(kind);
      case None =>
    }
  }

  lemma OtherWords(text: string)
    ensures HasOtherHandler(text) <==> text in ["users", "private", "room_msg", "history_private", "history_room"]
  {
  }

  lemma WordsDiffer()
    ensures "login" != "logout" && "login" != "create_room" && "login" != "join" && "login" != "leave"
    ensures "logout" != "create_room" && "logout" != "join" && "logout" != "leave"
    ensures "create_room" != "join" && "create_room" != "leave" && "join" != "leave"
    ensures forall text | text in ["login", "logout", "create_room", "join", "leave"] :: !HasOtherHandler(text)
  {
    assert |"login"| == 5 && |"logout"| == 6 && |"create_room"| == 11 && |"join"| == 4 && |"leave"| == 5;
    assert "login"[1] == 'o' && "leave"[1] == 'e' && "users"[0] == 'u';
    assert |"users"| == 5 && |"private"| == 7 && |"room_msg"| == 8 && |"history_private"| == 15 && |"history_room"| == 12;
  }

  /** Every call type is dispatched as itself, with the fields a call request has. */
  lemma KindIsDispatched(fields: JsonObject, kind: CallType)
    requires FieldOrEmpty(fields, "type") == KindText(kind)
    ensures Dispatch(fields) ==
            Handle(Call(kind, FieldOrEmpty(fields, "to"), FieldOrEmpty(fields, "call_id"), FieldOrEmpty(fields, "media"),
                        FieldOrEmpty(fields, "reason"), FieldOrEmpty(fields, if kind == IceCandidateType then "candidate" else "sdp")))
  {
    DispatchMeans(fields);
    hide *;
  }

  // ---------------------------------------------------------------------------------------------
  // Messages as lines
  // ---------------------------------------------------------------------------------------------

  function RoomErrorText(error: R.RoomError): string {
    match error
    case InvalidRoomName => "invalid room name"
    case RoomExists => "room already exists"
    case NoSuchRoom => "room does not exist"
    case NotAMember => "user is not in room"
  }

  function Response(kind: string, text: string): JsonObject { map["type" := kind, "message" := text] }

  function CallResponse(kind: string, user: string, id: string, fault: Fault): JsonObject {
    map["type" := kind, "from" := "server", "to" := user, "call_id" := id, "reason" := FaultText(fault)]
  }

  function CallEventFields(kind: CallType, sender: string, target: string, id: string, reason: EventReason): JsonObject {
    var event := map["type" := KindText(kind), "from" := sender, "to" := target, "call_id" := id];
    var event' := if EventReasonText(reason) == "" then event else event["reason" := EventReasonText(reason)];
    if kind == CallInvite then event'["media" := "video"] else event'
  }

  function FieldsOf(m: Message): JsonObject
    requires !m.Signaling?
  {
    match m
    case Failure(notice) => Response("error", NoticeText(notice))
    case Success(notice) => Response("ok", NoticeText(notice))
    case RoomFailure(error) => Response("error", RoomErrorText(error))
    case CallError(user, id, fault) => CallResponse("call_error", user, id, fault)
    case CallBusy(user, id, fault) => CallResponse("call_busy", user, id, fault)
    case CallEvent(kind, sender, target, id, reason) => CallEventFields(kind, sender, target, id, reason)
  }

  function Render(m: Message): string {
    if m.Signaling?
    then SignalingEvent(KindText(m.kind), m.sender, m.target, m.id, PayloadName(m.kind), m.payload)
    else MakeJsonLine(FieldsOf(m))
  }

  ghost predicate IsOneLine(s: string) {
    s != "" && forall i | 0 <= i < |s| :: s[i] == '\n' <==> i == |s| - 1
  }

  /** Every message but forwarded signaling is one line; in whatever pieces it arrives, a receiver takes it
      as the fields it was made of, if and only if it fits the limit of that receiver, if there is one. */
  lemma MessageIsHandled(m: Message, limit: F.Limit)
    requires !m.Signaling?
    ensures IsOneLine(Render(m))
    ensures HandledAs(Render(m), FieldsOf(m), limit) <==> F.Fits(|Render(m)| - 1, limit)
  {
    hide FieldsOf, Serialize, Parse;
    var fields := FieldsOf(m);
    LineHasOneNewline(fields);
    SerializeThenParse(fields);
    EndsInBrace(fields);
    IsLine(fields);
    hide MakeJsonLine, HandledAs, F.StripCR;
    LineHandledIff(Serialize(fields), fields, limit);
  }

  /** Forwarded signaling is one line exactly if the payload holds no newline. */
  lemma SignalingIsOneLineIff(m: Message)
    requires m.Signaling?
    ensures IsOneLine(Render(m)) <==> '\n' !in m.payload
  {
    hide KindText, PayloadName, SignalingEvent;
    var kind, name := KindText(m.kind), PayloadName(m.kind);
    if '\n' !in m.payload {
      EventIsOneLine(kind, m.sender, m.target, m.id, name, m.payload);
    } else {
      SplicedNewline(kind, m.sender, m.target, m.id, name, m.payload);
    }
  }

  lemma SplicedNewline(kind: string, sender: string, target: string, callId: string, name: string, payload: string)
    requires '\n' in payload
    ensures var line := SignalingEvent(kind, sender, target, callId, name, payload);
            exists i :: 0 <= i < |line| - 1 && line[i] == '\n'
  {
    hide *;
    var head, quoted := Head(kind, sender, target, callId), Quote(name);
    var q := 1 + |head| + 1 + |quoted| + 1;
    EventIsBody(kind, sender, target, callId, name, payload);
    EventCut(head, quoted, payload, 1 + |head| + 1, q);
    NewlineInside(EventBody(head, quoted, payload), q, payload);
  }

  lemma NewlineInside(t: string, q: nat, payload: string)
    requires q < |t| && t[q..|t| - 1] == payload && '\n' in payload
    ensures var line := t + "\n"; exists i :: 0 <= i < |line| - 1 && line[i] == '\n'
  {
    var k :| 0 <= k < |payload| && payload[k] == '\n';
    assert t[q..|t| - 1][k] == t[q + k];
    assert (t + "\n")[q + k] == '\n';
  }

  // ---------------------------------------------------------------------------------------------
  // From client to client
  // ---------------------------------------------------------------------------------------------

  // A signaling request as a client writes it; whom it says it is from is up to the client.
  function SignalLine(kind: CallType, claimed: string, target: string, id: string, payload: string): string {
    SignalingEvent(KindText(kind), claimed, target, id, PayloadName(kind), payload)
  }

  // What its fields are for the server.
  function SignalFields(kind: CallType, sender: string, target: string, id: string, payload: string): JsonObject {
    SignalingFields(KindText(kind), sender, target, id)[PayloadName(kind) := payload]
  }

  lemma SignalLineIsDispatched(kind: CallType, claimed: string, target: string, id: string, payload: string)
    requires IsSignal(kind)
    ensures Dispatch(SignalFields(kind, claimed, target, id, payload)) == Handle(Call(kind, target, id, "", "", payload))
  {
    var fields := SignalFields(kind, claimed, target, id, payload);
    FieldsOfSignal(kind, claimed, target, id, payload, fields);
    hide KindText, PayloadName, SignalFields, Dispatch, FieldOrEmpty, IsSignal;
    KindIsDispatched(fields, kind);
  }

  lemma FieldsOfSignal(kind: CallType, claimed: string, target: string, id: string, payload: string, fields: JsonObject)
    requires IsSignal(kind)
    requires fields == SignalingFields(KindText(kind), claimed, target, id)[PayloadName(kind) := payload]
    ensures FieldOrEmpty(fields, "type") == KindText(kind)
    ensures FieldOrEmpty(fields, "to") == target && FieldOrEmpty(fields, "call_id") == id
    ensures FieldOrEmpty(fields, PayloadName(kind)) == payload
    ensures FieldOrEmpty(fields, "media") == "" && FieldOrEmpty(fields, "reason") == ""
  {
    hide KindText;
    var name := PayloadName(kind);
    assert |name| == 3 || |name| == 9;
    assert |"type"| == 4 && |"from"| == 4 && |"to"| == 2 && |"call_id"| == 7 && |"media"| == 5 && |"reason"| == 6;
    assert "type"[0] == 't' && "from"[0] == 'f';
  }

  /** The peer's loop takes a forwarded signal as its fields, in every split into reads, if and only if the
      payload is one object without a newline, and the line fits the peer's limit, if it has one. */
  lemma SignalIsHandledIff(m: Message, limit: F.Limit)
    requires m.Signaling? && PayloadAccepted(m.payload)
    ensures Render(m) != ""
    ensures HandledAs(Render(m), SignalFields(m.kind, m.sender, m.target, m.id, m.payload), limit)
            <==> IsObjectText(m.payload) && '\n' !in m.payload && F.Fits(|Render(m)| - 1, limit)
  {
    SignalingHandledIff(KindText(m.kind), m.sender, m.target, m.id, PayloadName(m.kind), m.payload, limit);
    hide KindText, PayloadName, SignalingEvent, SignalingFields, HandledAs, IsObjectText;
  }

  // The call is accepted and between the two; its caller offers, its callee answers.
  predicate MaySend(calls: CallMap, user: string, kind: CallType, target: string, id: string) {
    && id in calls && calls[id].accepted
    && ((calls[id].caller == user && calls[id].callee == target) || (calls[id].caller == target && calls[id].callee == user))
    && (kind == WebrtcOffer ==> calls[id].caller == user)
    && (kind == WebrtcAnswer ==> calls[id].callee == user)
  }

  /** A signal sent in a call reaches the peer.  The server handles the sender's line, if that fits its
      limit, as one request, however it arrives; the request leads to one message, to the peer; and the peer
      takes its line, however it arrives, as the sender's payload under the sender's login name, whatever the
      request claimed: a client always, a peer with a limit exactly if the line fits it. */
  lemma SignalArrives(conn: Users.Conn, g: Shared, user: string, kind: CallType, claimed: string,
                      target: string, id: string, payload: string)
    requires Matching(g.calls) && IsSignal(kind) && IsObjectText(payload) && '\n' !in payload
    requires user != "" && IsValidName(target) && IsValidCallId(id) && target != user && target in g.online
    requires MaySend(g.calls, user, kind, target, id)
    requires |SignalLine(kind, claimed, target, id, payload)| - 1 <= F.kMaxRequestLineBytes
    ensures HandledAs(SignalLine(kind, claimed, target, id, payload), SignalFields(kind, claimed, target, id, payload),
                      F.ServerLimit)
    ensures Dispatch(SignalFields(kind, claimed, target, id, payload)) == Handle(Call(kind, target, id, "", "", payload))
    ensures var taken := Begin(conn, Local(user, Idle), Call(kind, target, id, "", "", payload)).0;
            && CallsOthers(taken)
            && Finish(conn, g, taken)
               == Outcome(g, Local(user, Idle), [Delivery(g.online[target], Signaling(kind, user, target, id, payload))])
    ensures var line := Render(Signaling(kind, user, target, id, payload));
            && line != "" && HandledAs(line, SignalFields(kind, user, target, id, payload), F.Unlimited)
            && forall limit :: HandledAs(line, SignalFields(kind, user, target, id, payload), limit) <==> F.Fits(|line| - 1, limit)
  {
    hide *;
    ServerTakesSignal(kind, claimed, target, id, payload);
    PeerTakesSignal(kind, user, target, id, payload);
    SignalLineIsDispatched(kind, claimed, target, id, payload);
    ObjectIsAccepted(payload);
    SignalAllowed(g.calls, user, kind, target, id);
    SignalIsServed(conn, g, user, kind, target, id, payload);
  }

  lemma SignalAllowed(calls: CallMap, user: string, kind: CallType, target: string, id: string)
    requires IsSignal(kind) && MaySend(calls, user, kind, target, id)
    ensures Judge(calls, Signal(user, target, id, KindOf(kind))) == Done
  {
  }

  lemma ServerTakesSignal(kind: CallType, claimed: string, target: string, id: string, payload: string)
    requires IsObjectText(payload) && '\n' !in payload
    requires |SignalLine(kind, claimed, target, id, payload)| - 1 <= F.kMaxRequestLineBytes
    ensures HandledAs(SignalLine(kind, claimed, target, id, payload), SignalFields(kind, claimed, target, id, payload),
                      F.ServerLimit)
  {
    hide *;
    ObjectIsAccepted(payload);
    RenderedSignal(kind, claimed, target, id, payload);
    SignalIsHandledIff(Signaling(kind, claimed, target, id, payload), F.ServerLimit);
    FitsIs(|SignalLine(kind, claimed, target, id, payload)|);
  }

  lemma PeerTakesSignal(kind: CallType, user: string, target: string, id: string, payload: string)
    requires IsObjectText(payload) && '\n' !in payload
    ensures var line := Render(Signaling(kind, user, target, id, payload));
            && line != "" && HandledAs(line, SignalFields(kind, user, target, id, payload), F.Unlimited)
            && forall limit :: HandledAs(line, SignalFields(kind, user, target, id, payload), limit) <==> F.Fits(|line| - 1, limit)
  {
    hide *;
    ObjectIsAccepted(payload);
    var m := Signaling(kind, user, target, id, payload);
    SignalIsHandledIff(m, F.Unlimited);
    FitsIs(|Render(m)|);
    forall limit ensures HandledAs(Render(m), SignalFields(kind, user, target, id, payload), limit) <==> F.Fits(|Render(m)| - 1, limit) {
      SignalIsHandledIff(m, limit);
    }
  }

  lemma FitsIs(length: nat)
    requires length > 0
    ensures F.Fits(length - 1, F.ServerLimit) <==> length - 1 <= F.kMaxRequestLineBytes
    ensures F.Fits(length - 1, F.Unlimited)
  {
  }

  lemma ObjectIsAccepted(payload: string)
    requires IsObjectText(payload)
    ensures PayloadAccepted(payload)
  {
    hide SkipValue;
  }

  // A client writes a signal as the server does.
  lemma RenderedSignal(kind: CallType, sender: string, target: string, id: string, payload: string)
    ensures SignalLine(kind, sender, target, id, payload) == Render(Signaling(kind, sender, target, id, payload))
  {
  }

  lemma SignalIsServed(conn: Users.Conn, g: Shared, user: string, kind: CallType, target: string, id: string, payload: string)
    requires Matching(g.calls) && IsSignal(kind) && PayloadAccepted(payload)
    requires user != "" && IsValidName(target) && IsValidCallId(id) && target != user
    requires Judge(g.calls, Signal(user, target, id, KindOf(kind))) == Done && target in g.online
    ensures var taken := Begin(conn, Local(user, Idle), Call(kind, target, id, "", "", payload)).0;
            && CallsOthers(taken)
            && Finish(conn, g, taken) ==
               Outcome(g, Local(user, Idle), [Delivery(g.online[target], Signaling(kind, user, target, id, payload))])
  {
    hide Matching, Judge, Advance, Finish, After, IsValidName, IsValidCallId;
    var call := Ref(user, target, id);
    SignalTaken(conn, user, kind, target, id, payload);
    var taken := Local(user, SignalCheck(kind, call, payload));
    var checked := Local(user, SignalRoute(kind, call, payload));
    AdvanceDispatches(conn, g, taken);
    FinishSilent(conn, g, taken);
    AdvanceDispatches(conn, g, checked);
    FinishLast(conn, g, checked);
  }

  lemma SignalTaken(conn: Users.Conn, user: string, kind: CallType, target: string, id: string, payload: string)
    requires IsSignal(kind) && PayloadAccepted(payload) && user != "" && IsValidName(target) && IsValidCallId(id) && target != user
    ensures Begin(conn, Local(user, Idle), Call(kind, target, id, "", "", payload)).0 ==
            Local(user, SignalCheck(kind, Ref(user, target, id), payload))
  {
    hide IsValidName, IsValidCallId;
  }

  // ---------------------------------------------------------------------------------------------
  // The method
  // ---------------------------------------------------------------------------------------------

  /** ChatSession::handleRequest, up to the call of the handler. */
  method HandleRequest(fields: JsonObject) returns (d: Dispatched)
    ensures d == Dispatch(fields)
  {
    var text := FieldOrEmpty(fields, "type");
    if text == "login" { return Handle(Login(FieldOrEmpty(fields, "username"))); }
    if text == "logout" { return Handle(Logout); }
    if text == "create_room" { return Handle(CreateRoom(FieldOrEmpty(fields, "room"))); }
    if text == "join" { return Handle(Join(FieldOrEmpty(fields, "room"))); }
    if text == "leave" { return Handle(Leave(FieldOrEmpty(fields, "room"))); }
    if text == "users" || text == "private" || text == "room_msg" || text == "history_private" || text == "history_room" {
      return OtherHandler;
    }
    if text == "call_invite" { return Handle(CallRequest(fields, CallInvite)); }
    if text == "call_accept" { return Handle(CallRequest(fields, CallAccept)); }
    if text == "call_reject" { return Handle(CallRequest(fields, CallReject)); }
    if text == "call_cancel" { return Handle(CallRequest(fields, CallCancel)); }
    if text == "call_hangup" { return Handle(CallRequest(fields, CallHangup)); }
    if text == "call_timeout" { return Handle(CallRequest(fields, CallTimeout)); }
    if text == "webrtc_offer" { return Handle(CallRequest(fields, WebrtcOffer)); }
    if text == "webrtc_answer" { return Handle(CallRequest(fields, WebrtcAnswer)); }
    if text == "ice_candidate" { return Handle(CallRequest(fields, IceCandidateType)); }
    return UnknownType;
  }
}
