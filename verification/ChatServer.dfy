/** The handlers of server/ChatServer.cc on the real managers.  A handler may be interrupted between
    any two manager calls, so each method below is the piece of a handler from one manager call to
    the next, for the stage the session has reached; together they are the handlers' source text.
    Every piece does to the managers, the session and the connections exactly what the step of
    `ChatProtocol` says. */
module ChatServers {
  import opened Names
  import opened Users
  import R = Rooms
  import opened Calls
  import opened ChatProtocol

  class ChatSession {
    const conn: Conn
    var username: string
    var stage: Stage

    constructor (conn: Conn)
      ensures this.conn == conn && Here() == Local("", Idle)
    {
      this.conn := conn;
      username, stage := "", Idle;
    }

    function Here(): Local reads this { Local(username, stage) }
  }

  class ChatServer {
    const users: UserManager
    const rooms: R.RoomManager
    const calls: CallManager
    var sent: seq<Delivery>

    ghost predicate Valid() reads this, rooms, calls {
      rooms.Valid() && calls.Valid()
    }

    ghost function Managers(): Shared reads this, users, rooms, calls {
      Shared(users.users, calls.calls, rooms.rooms)
    }

    constructor ()
      ensures Valid() && fresh(users) && fresh(rooms) && fresh(calls)
      ensures Managers() == Shared(map[], map[], map[]) && sent == []
    {
      users := new UserManager();
      rooms := new R.RoomManager();
      calls := new CallManager();
      sent := [];
    }

    twostate predicate Did(session: ChatSession, o: Outcome)
      reads this, users, rooms, calls, session
    {
      Managers() == o.shared && session.Here() == o.local && sent == old(sent) + o.sent
    }

    method Send(conn: Conn, message: Message)
      modifies this`sent
      ensures sent == old(sent) + [Delivery(conn, message)]
    {
      sent := sent + [Delivery(conn, message)];
    }

    method TakeRequest(session: ChatSession, request: Request)
      requires Valid() && session.stage.Idle?
      modifies this`sent, session
      ensures Valid() && var begun := Begin(session.conn, old(session.Here()), request);
              Did(session, Outcome(old(Managers()), begun.0, begun.1))
    {
      var username := session.username;
      match request {
        case Login(name) =>
          if username != "" {
            Send(session.conn, Failure(AlreadyLoggedIn));
          } else {
            session.stage := RegisterName(name);
          }
        case Logout =>
          if username == "" { Send(session.conn, Failure(NotLoggedIn)); } else { session.stage := DropCalls(false); }
        case Disconnect =>
          if username == "" { session.stage := Closed; } else { session.stage := DropCalls(true); }
        case CreateRoom(room) =>
          if username == "" { Send(session.conn, Failure(NeedsLogin)); } else { session.stage := CreatingRoom(room); }
        case Join(room) =>
          if username == "" { Send(session.conn, Failure(NeedsLogin)); } else { session.stage := JoiningRoom(room); }
        case Leave(room) =>
          if username == "" { Send(session.conn, Failure(NeedsLogin)); } else { session.stage := LeavingRoom(room); }
        case Call(_, _, _, _, _, _) => HandleCallRequest(session, request);
      }
    }

    // handleCallRequest, up to the first call of a manager
    method HandleCallRequest(session: ChatSession, request: Request)
      requires Valid() && session.stage.Idle? && request.Call?
      modifies this`sent, session
      ensures Valid() && var begun := Begin(session.conn, old(session.Here()), request);
              Did(session, Outcome(old(Managers()), begun.0, begun.1))
    {
      var username := session.username;
      if username == "" {
        Send(session.conn, Failure(NeedsLogin));
        return;
      }
      var target, callId := request.target, request.id;
      var call := Ref(username, target, callId);
      if !IsValidName(target) {
        Send(session.conn, CallError(username, callId, InvalidTarget));
        return;
      }
      if !IsValidCallId(callId) {
        Send(session.conn, CallError(username, callId, InvalidCallId));
        return;
      }
      if target == username {
        Send(session.conn, CallError(username, callId, CannotCallSelf));
        return;
      }
      if request.kind == CallInvite {
        if request.media != "video" {
          Send(session.conn, CallError(username, callId, UnsupportedMedia));
          return;
        }
        session.stage := InviteLookup(call);
      } else if request.kind == WebrtcOffer || request.kind == WebrtcAnswer || request.kind == IceCandidateType {
        var rawPayload := request.payload;
        if rawPayload == "" || rawPayload[0] != '{' {
          Send(session.conn, CallError(username, callId, InvalidPayload));
          return;
        }
        session.stage := SignalCheck(request.kind, call, rawPayload);
      } else {
        session.stage := CallUpdate(request.kind, call, request.reason);
      }
    }

    method StepLogin(session: ChatSession)
      requires Valid() && InLogin(session.stage)
      modifies this`sent, users, session
      ensures Valid() && Did(session, Advance(session.conn, old(Managers()), old(session.Here())))
    {
      var name := session.stage.name;
      if session.stage.RegisterName? {
        var outcome := users.Login(name, session.conn);
        if outcome == Registered {
          session.stage := StoreName(name);
        } else {
          session.stage := Idle;
          Send(session.conn, Failure(if outcome == InvalidUsername then BadUsername else NameTaken));
        }
      } else {
        session.username, session.stage := name, Idle;
        Send(session.conn, Success(LoggedInAs(name)));
      }
    }

    method StepLogout(session: ChatSession)
      requires Valid() && InLogout(session.stage)
      modifies this`sent, users, rooms, calls, session
      ensures Valid() && Did(session, Advance(session.conn, old(Managers()), old(session.Here())))
    {
      hide Advance, Judge, Mirrors, Matching, R.WithoutUser;
      AdvanceDispatches(session.conn, Managers(), session.Here());
      var username := session.username;
      match session.stage {
        case DropCalls(closing) =>
          var event := calls.RemoveUser(username);
          session.stage := if event.Some? then NotifyPeer(event.value, closing) else DropRooms(closing);
        case NotifyPeer(event, closing) =>
          var peer := users.Find(event.peer);
          if peer.At? {
            Send(peer.conn, CallEvent(DisconnectKind(event.state), username, event.peer, event.callId, PeerDisconnected));
          }
          session.stage := DropRooms(closing);
        case DropRooms(closing) =>
          rooms.LeaveAll(username);
          session.stage := DropName(closing);
        case DropName(closing) =>
          users.Logout(username, session.conn);
          session.stage := ClearName(closing);
        case ClearName(closing) =>
          session.username, session.stage := "", if closing then Closed else Idle;
          if !closing { Send(session.conn, Success(LoggedOut)); }
      }
    }

    method StepRoom(session: ChatSession)
      requires Valid() && InRoom(session.stage)
      modifies this`sent, rooms, session
      ensures Valid() && Did(session, Advance(session.conn, old(Managers()), old(session.Here())))
    {
      hide AdvanceLogin, AdvanceLogout, AdvanceInvite, AdvanceUpdate, AdvanceSignal, Mirrors, IsValidName;
      var outcome, answer;
      match session.stage {
        case CreatingRoom(room) => outcome := rooms.CreateRoom(room); answer := RoomCreated;
        case JoiningRoom(room) => outcome := rooms.JoinRoom(room, session.username); answer := JoinedRoom;
        case LeavingRoom(room) => outcome := rooms.LeaveRoom(room, session.username); answer := LeftRoom;
      }
      session.stage := Idle;
      Send(session.conn, if outcome.Failed? then RoomFailure(outcome.error) else Success(answer));
    }

    method StepInvite(session: ChatSession)
      requires Valid() && CallsOthers(session.Here()) && InInvite(session.stage)
      modifies this`sent, calls, session
      ensures Valid() && Did(session, Advance(session.conn, old(Managers()), old(session.Here())))
    {
      hide Advance, Mirrors, Matching, Judge;
      AdvanceDispatches(session.conn, Managers(), session.Here());
      var call := session.stage.call;
      match session.stage {
        case InviteLookup(_) =>
          var peer := users.Find(call.target);
          if peer.At? {
            session.stage := InviteStart(call);
          } else {
            session.stage := Idle;
            Send(session.conn, CallError(call.user, call.id, TargetOffline));
          }
        case InviteStart(_) =>
          var verdict := calls.StartCall(call.user, call.target, call.id);
          if verdict == Done {
            session.stage := InviteRecheck(call);
          } else {
            session.stage := Idle;
            if verdict.reason == CallerBusy || verdict.reason == TargetBusy {
              Send(session.conn, CallBusy(call.user, call.id, Rule(verdict.reason)));
            } else {
              Send(session.conn, CallError(call.user, call.id, Rule(verdict.reason)));
            }
          }
        case InviteRecheck(_) =>
          var peer := users.Find(call.target);
          if peer.At? {
            session.stage := Idle;
            Send(peer.conn, CallEvent(CallInvite, call.user, call.target, call.id, NoReason));
          } else {
            session.stage := InviteCancel(call);
          }
        case InviteCancel(_) =>
          var _ := calls.CancelCall(call.user, call.target, call.id);
          session.stage := Idle;
          Send(session.conn, CallError(call.user, call.id, TargetOffline));
      }
    }

    method ApplyUpdate(kind: CallType, call: Ref) returns (verdict: Verdict)
      requires Valid()
      modifies calls
      ensures Valid() && verdict == Judge(old(calls.calls), OpOf(kind, call))
      ensures calls.calls == After(old(calls.calls), OpOf(kind, call))
    {
      match kind {
        case CallAccept => verdict := calls.AcceptCall(call.user, call.target, call.id);
        case CallReject => verdict := calls.RejectCall(call.user, call.target, call.id);
        case CallCancel => verdict := calls.CancelCall(call.user, call.target, call.id);
        case CallTimeout => verdict := calls.TimeoutCall(call.user, call.target, call.id);
        case _ => verdict := calls.HangupCall(call.user, call.target, call.id);
      }
    }

    method StepUpdate(session: ChatSession)
      requires Valid() && session.stage.CallUpdate?
      modifies this`sent, calls, session
      ensures Valid() && Did(session, Advance(session.conn, old(Managers()), old(session.Here())))
    {
      hide Advance, Judge, Mirrors, Matching;
      AdvanceDispatches(session.conn, Managers(), session.Here());
      var kind, call, reason := session.stage.kind, session.stage.call, session.stage.reason;
      var verdict := ApplyUpdate(kind, call);
      if verdict == Done {
        session.stage := CallNotify(kind, call, reason);
      } else {
        session.stage := Idle;
        Send(session.conn, CallError(call.user, call.id, Rule(verdict.reason)));
      }
    }

    method StepNotify(session: ChatSession)
      requires Valid() && session.stage.CallNotify?
      modifies this`sent, session
      ensures Valid() && Did(session, Advance(session.conn, old(Managers()), old(session.Here())))
    {
      hide Advance, Judge, Mirrors, Matching;
      AdvanceDispatches(session.conn, Managers(), session.Here());
      var kind, call, reason := session.stage.kind, session.stage.call, session.stage.reason;
      var peer := users.Find(call.target);
      if peer.At? {
        session.stage := Idle;
        Send(peer.conn, CallEvent(kind, call.user, call.target, call.id, ReasonOf(kind, reason)));
      } else {
        session.stage := if kind == CallAccept then AcceptRollback(call) else Idle;
      }
    }

    method StepSignal(session: ChatSession)
      requires Valid() && session.stage.SignalCheck?
      modifies this`sent, session
      ensures Valid() && Did(session, Advance(session.conn, old(Managers()), old(session.Here())))
    {
      hide Advance, Judge, Mirrors, Matching;
      AdvanceDispatches(session.conn, Managers(), session.Here());
      var kind, call, payload := session.stage.kind, session.stage.call, session.stage.payload;
      var verdict := calls.ValidateSignaling(call.user, call.target, call.id, KindOf(kind));
      if verdict == Done {
        session.stage := SignalRoute(kind, call, payload);
      } else {
        session.stage := Idle;
        Send(session.conn, CallError(call.user, call.id, Rule(verdict.reason)));
      }
    }

    method StepRoute(session: ChatSession)
      requires Valid() && session.stage.SignalRoute?
      modifies this`sent, session
      ensures Valid() && Did(session, Advance(session.conn, old(Managers()), old(session.Here())))
    {
      hide Advance, Judge, Mirrors, Matching;
      AdvanceDispatches(session.conn, Managers(), session.Here());
      var kind, call, payload := session.stage.kind, session.stage.call, session.stage.payload;
      var peer := users.Find(call.target);
      if peer.At? {
        session.stage := Idle;
        Send(peer.conn, Signaling(kind, call.user, call.target, call.id, payload));
      } else {
        session.stage := SignalRollback(call);
      }
    }

    // An accepted call, or one a signal was sent in, is hung up when the peer turns out to be gone.
    method StepRollback(session: ChatSession)
      requires Valid() && (session.stage.AcceptRollback? || session.stage.SignalRollback?)
      modifies this`sent, calls, session
      ensures Valid() && Did(session, Advance(session.conn, old(Managers()), old(session.Here())))
    {
      hide AdvanceLogin, AdvanceLogout, AdvanceRoom, AdvanceInvite, Judge, Mirrors, After, Matching;
      var call := session.stage.call;
      var _ := ApplyUpdate(CallHangup, call);
      session.stage := Idle;
      Send(session.conn, CallError(call.user, call.id, TargetOffline));
    }
  }
}
