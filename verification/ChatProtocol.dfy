/** The request handlers of server/ChatServer.cc as atomic steps.

    A manager method runs under its own mutex, so it is one step; a handler is a sequence of such
    steps, and the steps of different sessions interleave freely because sessions live on different
    worker loops.  The steps of one session are sequential.  A session's own username_ is written
    only by its own thread, so reading it needs no step of its own. */
module ChatProtocol {
  import opened Names
  import opened Users
  import R = Rooms
  import opened Calls

  // What the three managers hold.
  datatype Shared = Shared(online: OnlineMap, calls: CallMap, rooms: R.RoomMap)

  datatype CallType =
    | CallInvite | CallAccept | CallReject | CallCancel | CallTimeout | CallHangup
    | WebrtcOffer | WebrtcAnswer | IceCandidateType

  datatype Request =
    | Login(username: string)
    | Logout
    | CreateRoom(room: string)
    | Join(room: string)
    | Leave(room: string)
    | Call(kind: CallType, target: string, id: string, media: string, reason: string, payload: string)
    | Disconnect

  // What a client is told; the texts are the ones the source sends.
  datatype Notice =
    | AlreadyLoggedIn | NotLoggedIn | NeedsLogin | BadUsername | NameTaken
    | LoggedInAs(name: string) | LoggedOut | RoomCreated | JoinedRoom | LeftRoom

  function NoticeText(notice: Notice): string {
    match notice
    case AlreadyLoggedIn => "session is already logged in"
    case NotLoggedIn => "session is not logged in"
    case NeedsLogin => "login required"
    case BadUsername => "invalid username"
    case NameTaken => "username is already online"
    case LoggedInAs(name) => "logged in as " + name
    case LoggedOut => "logged out"
    case RoomCreated => "room created"
    case JoinedRoom => "joined room"
    case LeftRoom => "left room"
  }

  datatype Fault =
    | InvalidTarget | InvalidCallId | CannotCallSelf | UnsupportedMedia | InvalidPayload | TargetOffline
    | Rule(reason: CallReason)

  function FaultText(fault: Fault): string {
    match fault
    case InvalidTarget => "invalid_target"
    case InvalidCallId => "invalid_call_id"
    case CannotCallSelf => "cannot_call_self"
    case UnsupportedMedia => "unsupported_media"
    case InvalidPayload => "invalid_signaling_payload"
    case TargetOffline => "target_offline"
    case Rule(CallerBusy) => "caller_busy"
    case Rule(TargetBusy) => "target_busy"
    case Rule(DuplicateCallId) => "duplicate_call_id"
    case Rule(InvalidPendingCall) => "invalid_pending_call"
    case Rule(InvalidActiveCall) => "invalid_active_call"
    case Rule(NotInSameActiveCall) => "not_in_same_active_call"
    case Rule(OnlyCallerCanOffer) => "only_caller_can_offer"
    case Rule(OnlyCalleeCanAnswer) => "only_callee_can_answer"
  }

  // The reason field of a call event; an empty one is not sent.
  datatype EventReason = NoReason | PeerDisconnected | DialTimeout | Declined(text: string)

  function EventReasonText(reason: EventReason): string {
    match reason
    case NoReason => ""
    case PeerDisconnected => "peer_disconnected"
    case DialTimeout => "timeout"
    case Declined(text) => if text == "" then "rejected" else text
  }

  datatype Message =
    | Failure(notice: Notice)
    | Success(notice: Notice)
    | RoomFailure(error: R.RoomError)
    | CallError(user: string, id: string, fault: Fault)
    | CallBusy(user: string, id: string, fault: Fault)
    | CallEvent(kind: CallType, sender: string, target: string, id: string, reason: EventReason)
    | Signaling(kind: CallType, sender: string, target: string, id: string, payload: string)

  datatype Delivery = Delivery(conn: Conn, message: Message)

  // The user, his peer and the call id a call request is about.
  datatype Ref = Ref(user: string, target: string, id: string)

  // Where a session is: named after the manager method it calls next.
  datatype Stage =
    | Idle
    | Closed
    | RegisterName(name: string)
    | StoreName(name: string)
    | DropCalls(closing: bool)
    | NotifyPeer(event: CallDisconnectEvent, closing: bool)
    | DropRooms(closing: bool)
    | DropName(closing: bool)
    | ClearName(closing: bool)
    | CreatingRoom(room: string)
    | JoiningRoom(room: string)
    | LeavingRoom(room: string)
    | InviteLookup(call: Ref)
    | InviteStart(call: Ref)
    | InviteRecheck(call: Ref)
    | InviteCancel(call: Ref)
    | CallUpdate(kind: CallType, call: Ref, reason: string)
    | CallNotify(kind: CallType, call: Ref, reason: string)
    | AcceptRollback(call: Ref)
    | SignalCheck(kind: CallType, call: Ref, payload: string)
    | SignalRoute(kind: CallType, call: Ref, payload: string)
    | SignalRollback(call: Ref)

  datatype Local = Local(username: string, stage: Stage)
  {
    predicate Resting() { stage.Idle? || stage.Closed? }
  }

  datatype Outcome = Outcome(shared: Shared, local: Local, sent: seq<Delivery>)

  function KindOf(kind: CallType): SignalKind {
    match kind
    case WebrtcOffer => Offer
    case WebrtcAnswer => Answer
    case _ => IceCandidate
  }

  // The call manager operation of a call_accept, _reject, _cancel, _timeout or _hangup request.
  function OpOf(kind: CallType, call: Ref): CallOp {
    match kind
    case CallAccept => Accept(call.user, call.target, call.id)
    case CallReject => Reject(call.user, call.target, call.id)
    case CallCancel => Cancel(call.user, call.target, call.id)
    case CallTimeout => Timeout(call.user, call.target, call.id)
    case _ => Hangup(call.user, call.target, call.id)
  }

  // Why the peer is told a user disappeared.
  function DisconnectKind(state: CallUserState): CallType {
    if state == CallCalling then CallCancel else if state == CallRinging then CallReject else CallHangup
  }

  function ReasonOf(kind: CallType, reason: string): EventReason {
    if kind == CallReject then Declined(reason) else if kind == CallTimeout then DialTimeout else NoReason
  }

  function ToSelf(conn: Conn, message: Message): seq<Delivery> { [Delivery(conn, message)] }

  // ---------------------------------------------------------------------------------------------
  // One session taking one step
  // ---------------------------------------------------------------------------------------------

  // What handleCallRequest asks of a signaling payload before it is forwarded unescaped.
  predicate PayloadAccepted(payload: string) { payload != "" && payload[0] == '{' }

  predicate IsSignal(kind: CallType) { kind == WebrtcOffer || kind == WebrtcAnswer || kind == IceCandidateType }

  // How handleCallRequest takes up the request of a logged-in user.
  function BeginCall(call: Ref, kind: CallType, media: string, reason: string, payload: string): Either {
    if !IsValidName(call.target) then Answered(CallError(call.user, call.id, InvalidTarget))
    else if !IsValidCallId(call.id) then Answered(CallError(call.user, call.id, InvalidCallId))
    else if call.target == call.user then Answered(CallError(call.user, call.id, CannotCallSelf))
    else if kind == CallInvite then
      if media != "video" then Answered(CallError(call.user, call.id, UnsupportedMedia))
      else Taken(InviteLookup(call))
    else if IsSignal(kind) then
      if !PayloadAccepted(payload) then Answered(CallError(call.user, call.id, InvalidPayload))
      else Taken(SignalCheck(kind, call, payload))
    else Taken(CallUpdate(kind, call, reason))
  }

  // A request is answered on the spot, or the session sets out on it.
  datatype Either = Answered(message: Message) | Taken(stage: Stage)

  function Judged(username: string, request: Request): Either {
    match request
    case Login(name) =>
      if username != "" then Answered(Failure(AlreadyLoggedIn)) else Taken(RegisterName(name))
    case Logout =>
      if username == "" then Answered(Failure(NotLoggedIn)) else Taken(DropCalls(false))
    case Disconnect => Taken(if username == "" then Closed else DropCalls(true))
    case CreateRoom(room) => if username == "" then LoginRequired else Taken(CreatingRoom(room))
    case Join(room) => if username == "" then LoginRequired else Taken(JoiningRoom(room))
    case Leave(room) => if username == "" then LoginRequired else Taken(LeavingRoom(room))
    case Call(kind, target, id, media, reason, payload) =>
      if username == "" then LoginRequired else BeginCall(Ref(username, target, id), kind, media, reason, payload)
  }

  const LoginRequired := Answered(Failure(NeedsLogin))

  /** Taking up a request: everything a handler checks before it touches a manager. */
  function Begin(conn: Conn, local: Local, request: Request): (Local, seq<Delivery>)
    requires local.stage.Idle?
  {
    match Judged(local.username, request)
    case Answered(message) => (local, ToSelf(conn, message))
    case Taken(stage) => (local.(stage := stage), [])
  }

  predicate InLogin(stage: Stage) { stage.RegisterName? || stage.StoreName? }

  predicate InLogout(stage: Stage) {
    stage.DropCalls? || stage.NotifyPeer? || stage.DropRooms? || stage.DropName? || stage.ClearName?
  }

  predicate InRoom(stage: Stage) { stage.CreatingRoom? || stage.JoiningRoom? || stage.LeavingRoom? }

  predicate InInvite(stage: Stage) {
    stage.InviteLookup? || stage.InviteStart? || stage.InviteRecheck? || stage.InviteCancel?
  }

  predicate InUpdate(stage: Stage) { stage.CallUpdate? || stage.CallNotify? || stage.AcceptRollback? }

  predicate InSignal(stage: Stage) { stage.SignalCheck? || stage.SignalRoute? || stage.SignalRollback? }

  // login (lines 314-332)
  function AdvanceLogin(conn: Conn, g: Shared, l: Local): Outcome
    requires Matching(g.calls) && InLogin(l.stage)
  {
    var idle := l.(stage := Idle);
    match l.stage
    case RegisterName(name) =>
      if !IsValidName(name) then Outcome(g, idle, ToSelf(conn, Failure(BadUsername)))
      else if name in g.online then Outcome(g, idle, ToSelf(conn, Failure(NameTaken)))
      else Outcome(g.(online := g.online[name := conn]), l.(stage := StoreName(name)), [])
    case StoreName(name) =>
      Outcome(g, Local(name, Idle), ToSelf(conn, Success(LoggedInAs(name))))
  }

  // logout (lines 334-380)
  function AdvanceLogout(conn: Conn, g: Shared, l: Local): Outcome
    requires Matching(g.calls) && InLogout(l.stage)
  {
    match l.stage
    case DropCalls(closing) =>
      if Busy(g.calls, l.username) then
        var k := CallOf(g.calls, l.username);
        var event := CallDisconnectEvent(k, g.calls[k].PeerOf(l.username), g.calls[k].StateOf(l.username));
        Outcome(g.(calls := After(g.calls, Remove(l.username))), l.(stage := NotifyPeer(event, closing)), [])
      else Outcome(g, l.(stage := DropRooms(closing)), [])
    case NotifyPeer(event, closing) =>
      var told := match Lookup(g.online, event.peer)
                  case NotOnline => []
                  case At(peer) => [Delivery(peer, CallEvent(DisconnectKind(event.state), l.username, event.peer,
                                                             event.callId, PeerDisconnected))];
      Outcome(g, l.(stage := DropRooms(closing)), told)
    case DropRooms(closing) =>
      Outcome(g.(rooms := R.WithoutUser(g.rooms, l.username)), l.(stage := DropName(closing)), [])
    case DropName(closing) =>
      var online := if Lookup(g.online, l.username) == At(conn) then g.online - {l.username} else g.online;
      Outcome(g.(online := online), l.(stage := ClearName(closing)), [])
    case ClearName(closing) =>
      if closing then Outcome(g, Local("", Closed), [])
      else Outcome(g, Local("", Idle), ToSelf(conn, Success(LoggedOut)))
  }

  // createRoom, joinRoom and leaveRoom (lines 449-501)
  function AdvanceRoom(conn: Conn, g: Shared, l: Local): Outcome
    requires Matching(g.calls) && InRoom(l.stage)
  {
    var idle := l.(stage := Idle);
    match l.stage
    case CreatingRoom(room) =>
      if !IsValidName(room) then Outcome(g, idle, ToSelf(conn, RoomFailure(R.InvalidRoomName)))
      else if room in g.rooms then Outcome(g, idle, ToSelf(conn, RoomFailure(R.RoomExists)))
      else Outcome(g.(rooms := g.rooms[room := {}]), idle, ToSelf(conn, Success(RoomCreated)))
    case JoiningRoom(room) =>
      if room !in g.rooms then Outcome(g, idle, ToSelf(conn, RoomFailure(R.NoSuchRoom)))
      else Outcome(g.(rooms := g.rooms[room := g.rooms[room] + {l.username}]), idle,
                   ToSelf(conn, Success(JoinedRoom)))
    case LeavingRoom(room) =>
      if room !in g.rooms then Outcome(g, idle, ToSelf(conn, RoomFailure(R.NoSuchRoom)))
      else if l.username !in g.rooms[room] then Outcome(g, idle, ToSelf(conn, RoomFailure(R.NotAMember)))
      else Outcome(g.(rooms := g.rooms[room := g.rooms[room] - {l.username}]), idle,
                   ToSelf(conn, Success(LeftRoom)))
  }

  // handleCallRequest, call_invite (lines 643-695)
  function AdvanceInvite(conn: Conn, g: Shared, l: Local): Outcome
    requires Matching(g.calls) && InInvite(l.stage)
  {
    var idle := l.(stage := Idle);
    match l.stage
    case InviteLookup(call) =>
      if call.target !in g.online
      then Outcome(g, idle, ToSelf(conn, CallError(call.user, call.id, TargetOffline)))
      else Outcome(g, l.(stage := InviteStart(call)), [])
    case InviteStart(call) =>
      var op := Start(call.user, call.target, call.id);
      (match Judge(g.calls, op)
       case Refused(reason) =>
         var answer := if reason == CallerBusy || reason == TargetBusy
                       then CallBusy(call.user, call.id, Rule(reason))
                       else CallError(call.user, call.id, Rule(reason));
         Outcome(g, idle, ToSelf(conn, answer))
       case Done => Outcome(g.(calls := After(g.calls, op)), l.(stage := InviteRecheck(call)), []))
    case InviteRecheck(call) =>
      (match Lookup(g.online, call.target)
       case NotOnline => Outcome(g, l.(stage := InviteCancel(call)), [])
       case At(peer) =>
         Outcome(g, idle, [Delivery(peer, CallEvent(CallInvite, call.user, call.target, call.id, NoReason))]))
    case InviteCancel(call) =>
      Outcome(g.(calls := After(g.calls, Cancel(call.user, call.target, call.id))), idle,
              ToSelf(conn, CallError(call.user, call.id, TargetOffline)))
  }

  // handleCallRequest, accept to hangup (lines 699-718 and 763-795)
  function AdvanceUpdate(conn: Conn, g: Shared, l: Local): Outcome
    requires Matching(g.calls) && InUpdate(l.stage)
  {
    var idle := l.(stage := Idle);
    match l.stage
    case CallUpdate(kind, call, reason) =>
      (match Judge(g.calls, OpOf(kind, call))
       case Refused(why) => Outcome(g, idle, ToSelf(conn, CallError(call.user, call.id, Rule(why))))
       case Done => Outcome(g.(calls := After(g.calls, OpOf(kind, call))), l.(stage := CallNotify(kind, call, reason)), []))
    case CallNotify(kind, call, reason) =>
      (match Lookup(g.online, call.target)
       case At(peer) =>
         Outcome(g, idle, [Delivery(peer, CallEvent(kind, call.user, call.target, call.id, ReasonOf(kind, reason)))])
       case NotOnline =>
         if kind == CallAccept then Outcome(g, l.(stage := AcceptRollback(call)), []) else Outcome(g, idle, []))
    case AcceptRollback(call) =>
      Outcome(g.(calls := After(g.calls, Hangup(call.user, call.target, call.id))), idle,
              ToSelf(conn, CallError(call.user, call.id, TargetOffline)))
  }

  // handleCallRequest, forwarded signaling (lines 719-761)
  function AdvanceSignal(conn: Conn, g: Shared, l: Local): Outcome
    requires Matching(g.calls) && InSignal(l.stage)
  {
    var idle := l.(stage := Idle);
    match l.stage
    case SignalCheck(kind, call, payload) =>
      (match Judge(g.calls, Signal(call.user, call.target, call.id, KindOf(kind)))
       case Refused(why) => Outcome(g, idle, ToSelf(conn, CallError(call.user, call.id, Rule(why))))
       case Done => Outcome(g, l.(stage := SignalRoute(kind, call, payload)), []))
    case SignalRoute(kind, call, payload) =>
      (match Lookup(g.online, call.target)
       case At(peer) => Outcome(g, idle, [Delivery(peer, Signaling(kind, call.user, call.target, call.id, payload))])
       case NotOnline => Outcome(g, l.(stage := SignalRollback(call)), []))
    case SignalRollback(call) =>
      Outcome(g.(calls := After(g.calls, Hangup(call.user, call.target, call.id))), idle,
              ToSelf(conn, CallError(call.user, call.id, TargetOffline)))
  }

  /** One atomic step of a session that is busy with a request. */
  function Advance(conn: Conn, g: Shared, l: Local): Outcome
    requires Matching(g.calls)
    requires !l.Resting()
  {
    if InLogin(l.stage) then AdvanceLogin(conn, g, l)
    else if InLogout(l.stage) then AdvanceLogout(conn, g, l)
    else if InRoom(l.stage) then AdvanceRoom(conn, g, l)
    else if InInvite(l.stage) then AdvanceInvite(conn, g, l)
    else if InUpdate(l.stage) then AdvanceUpdate(conn, g, l)
    else AdvanceSignal(conn, g, l)
  }

  // A step is that of the handler the session is in.
  lemma AdvanceDispatches(conn: Conn, g: Shared, l: Local)
    requires Matching(g.calls) && !l.Resting()
    ensures InLogin(l.stage) ==> Advance(conn, g, l) == AdvanceLogin(conn, g, l)
    ensures InLogout(l.stage) ==> Advance(conn, g, l) == AdvanceLogout(conn, g, l)
    ensures InRoom(l.stage) ==> Advance(conn, g, l) == AdvanceRoom(conn, g, l)
    ensures InInvite(l.stage) ==> Advance(conn, g, l) == AdvanceInvite(conn, g, l)
    ensures InUpdate(l.stage) ==> Advance(conn, g, l) == AdvanceUpdate(conn, g, l)
    ensures InSignal(l.stage) ==> Advance(conn, g, l) == AdvanceSignal(conn, g, l)
  {
    hide AdvanceLogin, AdvanceLogout, AdvanceRoom, AdvanceInvite, AdvanceUpdate, AdvanceSignal, Matching;
  }

  // Steps a busy session can still take.
  function StepsLeft(stage: Stage): nat {
    match stage
    case Idle | Closed => 0
    case DropCalls(_) => 5
    case NotifyPeer(_, _) => 4
    case InviteLookup(_) => 4
    case DropRooms(_) | InviteStart(_) | CallUpdate(_, _, _) | SignalCheck(_, _, _) => 3
    case RegisterName(_) | DropName(_) | InviteRecheck(_) | CallNotify(_, _, _) | SignalRoute(_, _, _) => 2
    case _ => 1
  }

  /** A request carried to its end with no other session stepping in between. */
  function Finish(conn: Conn, g: Shared, l: Local): (o: Outcome)
    requires Matching(g.calls) && CallsOthers(l)
    ensures Matching(o.shared.calls) && o.local.Resting()
    decreases StepsLeft(l.stage)
  {
    if l.Resting() then Outcome(g, l, [])
    else
      var first := Advance(conn, g, l);
      AdvanceKeepsMatching(conn, g, l);
      var rest := Finish(conn, first.shared, first.local);
      rest.(sent := first.sent + rest.sent)
  }

  // A call request under way never names its own user as the peer.
  predicate CallsOthers(l: Local) {
    match l.stage
    case InviteLookup(call) => call.user != call.target
    case InviteStart(call) => call.user != call.target
    case _ => true
  }

  lemma AdvanceKeepsMatching(conn: Conn, g: Shared, l: Local)
    requires Matching(g.calls) && CallsOthers(l) && !l.Resting()
    ensures var o := Advance(conn, g, l);
            Matching(o.shared.calls) && CallsOthers(o.local) && StepsLeft(o.local.stage) < StepsLeft(l.stage)
  {
    if InLogin(l.stage) {
      LoginKeepsMatching(conn, g, l);
    } else if InLogout(l.stage) {
      LogoutKeepsMatching(conn, g, l);
    } else if InRoom(l.stage) {
      RoomKeepsMatching(conn, g, l);
    } else if InInvite(l.stage) {
      InviteKeepsMatching(conn, g, l);
    } else if InUpdate(l.stage) {
      UpdateKeepsMatching(conn, g, l);
    } else {
      SignalKeepsMatching(conn, g, l);
    }
    hide AdvanceLogin, AdvanceLogout, AdvanceRoom, AdvanceInvite, AdvanceUpdate, AdvanceSignal, Matching, StepsLeft, CallsOthers;
  }

  // A step that keeps calls one-to-one and brings the request nearer to its end.
  ghost predicate Progress(l: Local, o: Outcome) {
    Matching(o.shared.calls) && CallsOthers(o.local) && StepsLeft(o.local.stage) < StepsLeft(l.stage)
  }

  lemma LoginKeepsMatching(conn: Conn, g: Shared, l: Local)
    requires Matching(g.calls) && InLogin(l.stage)
    ensures Progress(l, AdvanceLogin(conn, g, l))
  {
    hide Matching, IsValidName;
  }

  lemma LogoutKeepsMatching(conn: Conn, g: Shared, l: Local)
    requires Matching(g.calls) && InLogout(l.stage)
    ensures Progress(l, AdvanceLogout(conn, g, l))
  {
    if l.stage.DropCalls? { MatchingPreserved(g.calls, Remove(l.username)); }
    hide Judge, After, Matching, Busy, R.WithoutUser;
  }

  lemma RoomKeepsMatching(conn: Conn, g: Shared, l: Local)
    requires Matching(g.calls) && InRoom(l.stage)
    ensures Progress(l, AdvanceRoom(conn, g, l))
  {
    hide Matching, IsValidName;
  }

  lemma InviteKeepsMatching(conn: Conn, g: Shared, l: Local)
    requires Matching(g.calls) && InInvite(l.stage) && CallsOthers(l)
    ensures Progress(l, AdvanceInvite(conn, g, l))
  {
    var call := l.stage.call;
    MatchingPreserved(g.calls, Start(call.user, call.target, call.id));
    MatchingPreserved(g.calls, Cancel(call.user, call.target, call.id));
    hide Judge, After, Matching, Busy;
  }

  lemma UpdateKeepsMatching(conn: Conn, g: Shared, l: Local)
    requires Matching(g.calls) && InUpdate(l.stage)
    ensures Progress(l, AdvanceUpdate(conn, g, l))
  {
    var call := l.stage.call;
    MatchingPreserved(g.calls, Hangup(call.user, call.target, call.id));
    if l.stage.CallUpdate? { MatchingPreserved(g.calls, OpOf(l.stage.kind, call)); }
    hide Judge, After, Matching, Busy;
  }

  lemma SignalKeepsMatching(conn: Conn, g: Shared, l: Local)
    requires Matching(g.calls) && InSignal(l.stage)
    ensures Progress(l, AdvanceSignal(conn, g, l))
  {
    var call := l.stage.call;
    MatchingPreserved(g.calls, Hangup(call.user, call.target, call.id));
    hide Judge, After, Matching, Busy;
  }

  // ---------------------------------------------------------------------------------------------
  // A request run alone, step by step
  // ---------------------------------------------------------------------------------------------

  // One step, and what is left of the request.
  lemma FinishStep(conn: Conn, g: Shared, l: Local)
    requires Matching(g.calls) && CallsOthers(l) && !l.Resting()
    ensures var first := Advance(conn, g, l);
            && Matching(first.shared.calls) && CallsOthers(first.local)
            && var rest := Finish(conn, first.shared, first.local);
               Finish(conn, g, l) == rest.(sent := first.sent + rest.sent)
  {
    AdvanceKeepsMatching(conn, g, l);
    hide Advance;
  }

  lemma FinishAtRest(conn: Conn, g: Shared, l: Local)
    requires Matching(g.calls) && CallsOthers(l) && l.Resting()
    ensures Finish(conn, g, l) == Outcome(g, l, [])
  {
  }

  // A request whose next step is its last.
  lemma FinishLast(conn: Conn, g: Shared, l: Local)
    requires Matching(g.calls) && CallsOthers(l) && !l.Resting() && Advance(conn, g, l).local.Resting()
    ensures Finish(conn, g, l) == Advance(conn, g, l)
  {
    FinishStep(conn, g, l);
    var first := Advance(conn, g, l);
    FinishAtRest(conn, first.shared, first.local);
    hide Advance, Finish;
    assert first.sent + [] == first.sent;
  }

  // A request whose next step tells nobody.
  lemma FinishSilent(conn: Conn, g: Shared, l: Local)
    requires Matching(g.calls) && CallsOthers(l) && !l.Resting() && Advance(conn, g, l).sent == []
    ensures var first := Advance(conn, g, l);
            && Matching(first.shared.calls) && CallsOthers(first.local)
            && Finish(conn, g, l) == Finish(conn, first.shared, first.local)
  {
    FinishStep(conn, g, l);
    hide Advance, Finish;
    var first := Advance(conn, g, l);
    var rest := Finish(conn, first.shared, first.local);
    assert [] + rest.sent == rest.sent;
  }
}
