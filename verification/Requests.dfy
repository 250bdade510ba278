/** What a request means when no other session steps in between: one change of the managers and the
    messages that go out.  The handlers get there in up to five manager calls, with lookups repeated
    and changes rolled back (server/ChatServer.cc). */
module Requests {
  import opened Names
  import opened Users
  import R = Rooms
  import opened Calls
  import opened ChatProtocol
  import opened ProtocolSafety

  datatype Effect = Effect(shared: Shared, username: string, closed: bool, sent: seq<Delivery>)

  function Told(conn: Conn, message: Message): seq<Delivery> { [Delivery(conn, message)] }

  function Unchanged(conn: Conn, g: Shared, user: string, message: Message): Effect {
    Effect(g, user, false, Told(conn, message))
  }

  // A user leaves: his call ends and his peer is told, his rooms and his name are free.
  function Left(conn: Conn, g: Shared, user: string, closing: bool): Effect
    requires Matching(g.calls)
  {
    var calls := if Busy(g.calls, user) then g.calls - {CallOf(g.calls, user)} else g.calls;
    var online := if user in g.online && g.online[user] == conn then g.online - {user} else g.online;
    Effect(Shared(online, calls, R.WithoutUser(g.rooms, user)), "", closing,
           PeerTold(g, user) + if closing then [] else Told(conn, Success(LoggedOut)))
  }

  function PeerTold(g: Shared, user: string): seq<Delivery>
    requires Matching(g.calls)
  {
    if !Busy(g.calls, user) then []
    else
      var k := CallOf(g.calls, user);
      var peer := g.calls[k].PeerOf(user);
      if peer !in g.online then []
      else
        var kind := if g.calls[k].accepted then CallHangup else if g.calls[k].caller == user then CallCancel else CallReject;
        Told(g.online[peer], CallEvent(kind, user, peer, k, PeerDisconnected))
  }

  function Invited(conn: Conn, g: Shared, call: Ref): Effect {
    if call.target !in g.online then Unchanged(conn, g, call.user, CallError(call.user, call.id, TargetOffline))
    else if Busy(g.calls, call.user) then Unchanged(conn, g, call.user, CallBusy(call.user, call.id, Rule(CallerBusy)))
    else if Busy(g.calls, call.target) then Unchanged(conn, g, call.user, CallBusy(call.user, call.id, Rule(TargetBusy)))
    else if call.id in g.calls then Unchanged(conn, g, call.user, CallError(call.user, call.id, Rule(DuplicateCallId)))
    else Effect(g.(calls := g.calls[call.id := CallRecord(call.user, call.target, false)]), call.user, false,
                Told(g.online[call.target], CallEvent(CallInvite, call.user, call.target, call.id, NoReason)))
  }

  // An accepted call whose peer is gone is over; whatever else happens to a call happens, told or not.
  function Updated(conn: Conn, g: Shared, kind: CallType, call: Ref, reason: string): Effect
    requires Matching(g.calls)
  {
    match Judge(g.calls, OpOf(kind, call))
    case Refused(why) => Unchanged(conn, g, call.user, CallError(call.user, call.id, Rule(why)))
    case Done =>
      if call.target in g.online then
        Effect(g.(calls := After(g.calls, OpOf(kind, call))), call.user, false,
               Told(g.online[call.target], CallEvent(kind, call.user, call.target, call.id, ReasonOf(kind, reason))))
      else if kind == CallAccept then
        Effect(g.(calls := g.calls - {call.id}), call.user, false, Told(conn, CallError(call.user, call.id, TargetOffline)))
      else Effect(g.(calls := After(g.calls, OpOf(kind, call))), call.user, false, [])
  }

  function Signaled(conn: Conn, g: Shared, kind: CallType, call: Ref, payload: string): Effect {
    match Judge(g.calls, Signal(call.user, call.target, call.id, KindOf(kind)))
    case Refused(why) => Unchanged(conn, g, call.user, CallError(call.user, call.id, Rule(why)))
    case Done =>
      if call.target in g.online then
        Effect(g, call.user, false, Told(g.online[call.target], Signaling(kind, call.user, call.target, call.id, payload)))
      else Effect(g.(calls := g.calls - {call.id}), call.user, false, Told(conn, CallError(call.user, call.id, TargetOffline)))
  }

  function LoggedIn(conn: Conn, g: Shared, name: string): Effect {
    if !IsValidName(name) then Unchanged(conn, g, "", Failure(BadUsername))
    else if name in g.online then Unchanged(conn, g, "", Failure(NameTaken))
    else Effect(g.(online := g.online[name := conn]), name, false, Told(conn, Success(LoggedInAs(name))))
  }

  function RoomRequested(conn: Conn, g: Shared, user: string, request: Request): Effect
    requires request.CreateRoom? || request.Join? || request.Leave?
  {
    var room := request.room;
    if request.CreateRoom? then
      if !IsValidName(room) then Unchanged(conn, g, user, RoomFailure(R.InvalidRoomName))
      else if room in g.rooms then Unchanged(conn, g, user, RoomFailure(R.RoomExists))
      else Effect(g.(rooms := g.rooms[room := {}]), user, false, Told(conn, Success(RoomCreated)))
    else if room !in g.rooms then Unchanged(conn, g, user, RoomFailure(R.NoSuchRoom))
    else if request.Join? then
      Effect(g.(rooms := g.rooms[room := g.rooms[room] + {user}]), user, false, Told(conn, Success(JoinedRoom)))
    else if user !in g.rooms[room] then Unchanged(conn, g, user, RoomFailure(R.NotAMember))
    else Effect(g.(rooms := g.rooms[room := g.rooms[room] - {user}]), user, false, Told(conn, Success(LeftRoom)))
  }

  function Called(conn: Conn, g: Shared, call: Ref, request: Request): Effect
    requires Matching(g.calls) && request.Call?
  {
    if !IsValidName(call.target) then Unchanged(conn, g, call.user, CallError(call.user, call.id, InvalidTarget))
    else if !IsValidCallId(call.id) then Unchanged(conn, g, call.user, CallError(call.user, call.id, InvalidCallId))
    else if call.target == call.user then Unchanged(conn, g, call.user, CallError(call.user, call.id, CannotCallSelf))
    else if request.kind == CallInvite then
      if request.media != "video" then Unchanged(conn, g, call.user, CallError(call.user, call.id, UnsupportedMedia))
      else Invited(conn, g, call)
    else if IsSignal(request.kind) then
      if !PayloadAccepted(request.payload) then Unchanged(conn, g, call.user, CallError(call.user, call.id, InvalidPayload))
      else Signaled(conn, g, request.kind, call, request.payload)
    else Updated(conn, g, request.kind, call, request.reason)
  }

  /** What a request does, for a session logged in as `user`, or not at all. */
  function Served(conn: Conn, g: Shared, user: string, request: Request): Effect
    requires Matching(g.calls)
  {
    if request.Login? then
      if user != "" then Unchanged(conn, g, user, Failure(AlreadyLoggedIn)) else LoggedIn(conn, g, request.username)
    else if request.Disconnect? then if user == "" then Effect(g, "", true, []) else Left(conn, g, user, true)
    else if request.Logout? then if user == "" then Unchanged(conn, g, "", Failure(NotLoggedIn)) else Left(conn, g, user, false)
    else if user == "" then Unchanged(conn, g, "", Failure(NeedsLogin))
    else if request.Call? then Called(conn, g, Ref(user, request.target, request.id), request)
    else RoomRequested(conn, g, user, request)
  }

  function EffectOf(conn: Conn, l: Local, o: Outcome): Effect {
    Effect(o.shared, o.local.username, o.local.stage.Closed?, o.sent)
  }

  // ---------------------------------------------------------------------------------------------
  // The handlers run alone
  // ---------------------------------------------------------------------------------------------

  /** An invitation is recorded and announced, or refused with the first complaint; the second lookup and
      the rollback behind it never come to bear when nobody steps in. */
  lemma InviteIsServed(conn: Conn, g: Shared, call: Ref)
    requires Matching(g.calls) && call.user != call.target
    ensures var l := Local(call.user, InviteLookup(call));
            EffectOf(conn, l, Finish(conn, g, l)) == Invited(conn, g, call)
  {
    hide Finish, Matching, Busy, PendingIs, ActiveIs, Advance;
    var l0 := Local(call.user, InviteLookup(call));
    AdvanceDispatches(conn, g, l0);
    if call.target !in g.online {
      FinishLast(conn, g, l0);
    } else {
      FinishSilent(conn, g, l0);
      var l1 := Local(call.user, InviteStart(call));
      AdvanceDispatches(conn, g, l1);
      var op := Start(call.user, call.target, call.id);
      if Judge(g.calls, op) != Done {
        FinishLast(conn, g, l1);
      } else {
        FinishSilent(conn, g, l1);
        var g2 := g.(calls := After(g.calls, op));
        AdvanceDispatches(conn, g2, Local(call.user, InviteRecheck(call)));
        FinishLast(conn, g2, Local(call.user, InviteRecheck(call)));
      }
    }
  }

  lemma AcceptThenHangup(calls: CallMap, call: Ref)
    requires Matching(calls) && Judge(calls, OpOf(CallAccept, call)) == Done
    ensures OpOf(CallAccept, call) == Accept(call.user, call.target, call.id)
    ensures var accepted := After(calls, Accept(call.user, call.target, call.id));
            && Matching(accepted)
            && After(accepted, Hangup(call.user, call.target, call.id)) == calls - {call.id}
  {
    MatchingPreserved(calls, Accept(call.user, call.target, call.id));
  }

  lemma UpdateIsServed(conn: Conn, g: Shared, kind: CallType, call: Ref, reason: string)
    requires Matching(g.calls) && kind != CallInvite && !IsSignal(kind)
    ensures var l := Local(call.user, CallUpdate(kind, call, reason));
            EffectOf(conn, l, Finish(conn, g, l)) == Updated(conn, g, kind, call, reason)
  {
    hide Finish, Advance, Judge, After, Matching, OpOf;
    var l0 := Local(call.user, CallUpdate(kind, call, reason));
    AdvanceDispatches(conn, g, l0);
    var op := OpOf(kind, call);
    if Judge(g.calls, op) != Done {
      FinishLast(conn, g, l0);
    } else {
      MatchingPreserved(g.calls, op);
      var g1 := g.(calls := After(g.calls, op));
      var l1 := Local(call.user, CallNotify(kind, call, reason));
      FinishSilent(conn, g, l0);
      AdvanceDispatches(conn, g1, l1);
      if call.target in g.online || kind != CallAccept {
        FinishLast(conn, g1, l1);
      } else {
        AcceptThenHangup(g.calls, call);
        FinishSilent(conn, g1, l1);
        AdvanceDispatches(conn, g1, Local(call.user, AcceptRollback(call)));
        FinishLast(conn, g1, Local(call.user, AcceptRollback(call)));
      }
    }
  }

  lemma HangupEnds(calls: CallMap, call: Ref, kind: SignalKind)
    requires Matching(calls) && Judge(calls, Signal(call.user, call.target, call.id, kind)) == Done
    ensures After(calls, Hangup(call.user, call.target, call.id)) == calls - {call.id}
  {
  }

  lemma SignalIsServed(conn: Conn, g: Shared, kind: CallType, call: Ref, payload: string)
    requires Matching(g.calls) && IsSignal(kind)
    ensures var l := Local(call.user, SignalCheck(kind, call, payload));
            EffectOf(conn, l, Finish(conn, g, l)) == Signaled(conn, g, kind, call, payload)
  {
    hide Finish, Advance, Judge, After, Matching, KindOf;
    var l0 := Local(call.user, SignalCheck(kind, call, payload));
    AdvanceDispatches(conn, g, l0);
    if Judge(g.calls, Signal(call.user, call.target, call.id, KindOf(kind))) != Done {
      FinishLast(conn, g, l0);
    } else {
      var l1 := Local(call.user, SignalRoute(kind, call, payload));
      FinishSilent(conn, g, l0);
      AdvanceDispatches(conn, g, l1);
      if call.target in g.online {
        FinishLast(conn, g, l1);
      } else {
        FinishSilent(conn, g, l1);
        AdvanceDispatches(conn, g, Local(call.user, SignalRollback(call)));
        HangupEnds(g.calls, call, KindOf(kind));
        FinishLast(conn, g, Local(call.user, SignalRollback(call)));
      }
    }
  }

  lemma LoginIsServed(conn: Conn, g: Shared, name: string)
    requires Matching(g.calls)
    ensures var l := Local("", RegisterName(name));
            EffectOf(conn, l, Finish(conn, g, l)) == LoggedIn(conn, g, name)
  {
    hide Finish, IsValidName, Matching;
    var l0 := Local("", RegisterName(name));
    if !IsValidName(name) || name in g.online {
      FinishLast(conn, g, l0);
    } else {
      FinishSilent(conn, g, l0);
      FinishLast(conn, g.(online := g.online[name := conn]), Local("", StoreName(name)));
    }
  }

  // logout, once the calls and the peer are dealt with
  lemma RestOfLogout(conn: Conn, g: Shared, user: string, closing: bool)
    requires Matching(g.calls)
    ensures var l := Local(user, DropRooms(closing));
            var online := if user in g.online && g.online[user] == conn then g.online - {user} else g.online;
            EffectOf(conn, l, Finish(conn, g, l))
            == Effect(Shared(online, g.calls, R.WithoutUser(g.rooms, user)), "", closing,
                      if closing then [] else Told(conn, Success(LoggedOut)))
  {
    hide Finish, Matching, R.WithoutUser;
    FinishSilent(conn, g, Local(user, DropRooms(closing)));
    var g1 := g.(rooms := R.WithoutUser(g.rooms, user));
    FinishSilent(conn, g1, Local(user, DropName(closing)));
    var online := if user in g.online && g.online[user] == conn then g.online - {user} else g.online;
    FinishLast(conn, g1.(online := online), Local(user, ClearName(closing)));
  }

  lemma DropCallsStep(conn: Conn, g: Shared, user: string, closing: bool)
    requires Matching(g.calls)
    ensures Advance(conn, g, Local(user, DropCalls(closing))) ==
            if Busy(g.calls, user) then
              var k := CallOf(g.calls, user);
              var event := CallDisconnectEvent(k, g.calls[k].PeerOf(user), g.calls[k].StateOf(user));
              Outcome(g.(calls := g.calls - {k}), Local(user, NotifyPeer(event, closing)), [])
            else Outcome(g, Local(user, DropRooms(closing)), [])
  {
    hide Matching, Busy;
  }

  lemma NotifyPeerStep(conn: Conn, g: Shared, user: string, event: CallDisconnectEvent, closing: bool)
    requires Matching(g.calls)
    ensures Advance(conn, g, Local(user, NotifyPeer(event, closing))) ==
            Outcome(g, Local(user, DropRooms(closing)),
                    if event.peer !in g.online then []
                    else Told(g.online[event.peer],
                              CallEvent(DisconnectKind(event.state), user, event.peer, event.callId, PeerDisconnected)))
  {
    hide Matching;
  }

  lemma LogoutIsServed(conn: Conn, g: Shared, user: string, closing: bool)
    requires Matching(g.calls)
    ensures var l := Local(user, DropCalls(closing));
            EffectOf(conn, l, Finish(conn, g, l)) == Left(conn, g, user, closing)
  {
    hide Finish, Matching, R.WithoutUser, Busy, Advance;
    var l0 := Local(user, DropCalls(closing));
    MatchingPreserved(g.calls, Remove(user));
    DropCallsStep(conn, g, user, closing);
    FinishSilent(conn, g, l0);
    if Busy(g.calls, user) {
      var k := CallOf(g.calls, user);
      var event := CallDisconnectEvent(k, g.calls[k].PeerOf(user), g.calls[k].StateOf(user));
      var g1 := g.(calls := g.calls - {k});
      NotifyPeerStep(conn, g1, user, event, closing);
      FinishStep(conn, g1, Local(user, NotifyPeer(event, closing)));
      RestOfLogout(conn, g1, user, closing);
    } else {
      RestOfLogout(conn, g, user, closing);
    }
  }

  lemma RoomRequestIsServed(conn: Conn, g: Shared, user: string, request: Request)
    requires Matching(g.calls) && user != "" && (request.CreateRoom? || request.Join? || request.Leave?)
    ensures var l := Begin(conn, Local(user, Idle), request).0;
            && CallsOthers(l) && Begin(conn, Local(user, Idle), request).1 == []
            && EffectOf(conn, l, Finish(conn, g, l)) == RoomRequested(conn, g, user, request)
  {
    hide Finish, Matching, IsValidName;
    FinishLast(conn, g, Begin(conn, Local(user, Idle), request).0);
  }

  lemma CallIsServed(conn: Conn, g: Shared, user: string, request: Request)
    requires Matching(g.calls) && user != "" && request.Call?
    ensures var begun := Begin(conn, Local(user, Idle), request);
            && CallsOthers(begun.0)
            && EffectOf(conn, begun.0, Finish(conn, g, begun.0)).(sent := begun.1 + Finish(conn, g, begun.0).sent)
               == Called(conn, g, Ref(user, request.target, request.id), request)
  {
    hide Finish, Matching, IsValidName, IsValidCallId, Invited, Updated, Signaled;
    var call := Ref(user, request.target, request.id);
    var begun := Begin(conn, Local(user, Idle), request);
    if begun.0.stage.Idle? {
      FinishAtRest(conn, g, begun.0);
    } else if request.kind == CallInvite {
      InviteIsServed(conn, g, call);
    } else if IsSignal(request.kind) {
      SignalIsServed(conn, g, request.kind, call, request.payload);
    } else {
      UpdateIsServed(conn, g, request.kind, call, request.reason);
    }
  }

  /** A request that runs alone does exactly this: the steps of the handlers, one after the other, refine
      the one-step meaning of the request. */
  lemma RequestIsServed(conn: Conn, g: Shared, user: string, request: Request)
    requires Matching(g.calls)
    ensures var begun := Begin(conn, Local(user, Idle), request);
            && CallsOthers(begun.0)
            && EffectOf(conn, begun.0, Finish(conn, g, begun.0)).(sent := begun.1 + Finish(conn, g, begun.0).sent)
               == Served(conn, g, user, request)
  {
    var begun := Begin(conn, Local(user, Idle), request);
    if begun.0.Resting() {
      FinishAtRest(conn, g, begun.0);
      if request.Call? && user != "" { CallIsServed(conn, g, user, request); }
    } else if request.Login? {
      LoginIsServed(conn, g, request.username);
    } else if request.Logout? || request.Disconnect? {
      LogoutIsServed(conn, g, user, request.Disconnect?);
    } else if request.Call? {
      CallIsServed(conn, g, user, request);
    } else {
      RoomRequestIsServed(conn, g, user, request);
    }
    hide Finish, Matching, IsValidName, IsValidCallId, Invited, Updated, Signaled, Left, LoggedIn, RoomRequested, BeginCall;
  }

  predicate IsComplaint(message: Message) { message.CallError? || message.CallBusy? }

  predicate IsNews(message: Message, user: string, target: string) {
    (message.CallEvent? || message.Signaling?) && message.sender == user && message.target == target
  }

  // What a call operation is judged by is a call its user and his peer both have.
  lemma PeerIsInCall(calls: CallMap, op: CallOp, user: string, target: string, id: string)
    requires Judge(calls, op) == Done
    requires || op == Accept(user, target, id) || op == Reject(user, target, id) || op == Cancel(user, target, id)
             || op == Timeout(user, target, id) || op == Hangup(user, target, id)
             || (op.Signal? && op == Signal(user, target, id, op.kind))
    ensures id in calls && calls[id].Has(target)
  {
  }

  /** A complaint to the sender, and then nothing has changed, or the news to his peer. */
  ghost predicate AnsweredOnce(e: Effect, c: Conn, g: Shared, user: string, target: string) {
    && |e.sent| == 1
    && (|| (e.sent[0].conn == c && IsComplaint(e.sent[0].message) && e.shared == g)
        || (target in g.online && e.sent[0].conn == g.online[target] && IsNews(e.sent[0].message, user, target)))
  }

  lemma InviteIsAnswered(c: Conn, g: Shared, call: Ref)
    ensures AnsweredOnce(Invited(c, g, call), c, g, call.user, call.target)
  {
    hide Busy;
  }

  lemma UpdateIsAnswered(c: Conn, g: Shared, kind: CallType, call: Ref, reason: string)
    requires Matching(g.calls) && (Judge(g.calls, OpOf(kind, call)) == Done ==> call.target in g.online)
    ensures AnsweredOnce(Updated(c, g, kind, call, reason), c, g, call.user, call.target)
  {
    hide Judge, After, Matching;
  }

  lemma SignalIsAnswered(c: Conn, g: Shared, kind: CallType, call: Ref, payload: string)
    requires Judge(g.calls, Signal(call.user, call.target, call.id, KindOf(kind))) == Done ==> call.target in g.online
    ensures AnsweredOnce(Signaled(c, g, kind, call, payload), c, g, call.user, call.target)
  {
    hide Judge;
  }

  /** Where requests run one at a time, every call request of a logged-in user is answered by exactly one
      message. */
  lemma CallRequestsAreAnsweredOnce(s: System, c: Conn, request: Request)
    requires Inv(s) && AllBacked(s) && c in s.locals && s.locals[c].username != "" && request.Call?
    ensures var user := s.locals[c].username;
            AnsweredOnce(Served(c, s.shared, user, request), c, s.shared, user, request.target)
  {
    hide Inv, Matching, Judge, After, AllBacked, Served, Called, AnsweredOnce, IsSignal;
    var g, user := s.shared, s.locals[c].username;
    var call := Ref(user, request.target, request.id);
    MatchingOf(s);
    ServedCall(c, g, call, request);
    InviteIsAnswered(c, g, call);
    if IsSignal(request.kind) {
      PeerIsOnline(s, Signal(user, request.target, request.id, KindOf(request.kind)), user, request.target, request.id);
      SignalIsAnswered(c, g, request.kind, call, request.payload);
    } else if request.kind != CallInvite {
      PeerIsOnline(s, OpOf(request.kind, call), user, request.target, request.id);
      UpdateIsAnswered(c, g, request.kind, call, request.reason);
    }
  }

  lemma MatchingOf(s: System)
    requires Inv(s)
    ensures Matching(s.shared.calls)
  {
    hide Matching;
  }

  lemma ServedCall(c: Conn, g: Shared, call: Ref, request: Request)
    requires Matching(g.calls) && request.Call? && call.user != "" && call == Ref(call.user, request.target, request.id)
    ensures var e, kind := Served(c, g, call.user, request), request.kind;
            || AnsweredOnce(e, c, g, call.user, call.target)
            || (kind == CallInvite && e == Invited(c, g, call))
            || (IsSignal(kind) && e == Signaled(c, g, kind, call, request.payload))
            || (kind != CallInvite && !IsSignal(kind) && e == Updated(c, g, kind, call, request.reason))
  {
    hide Matching, IsValidName, IsValidCallId, Invited, Updated, Signaled;
  }

  lemma PeerIsOnline(s: System, op: CallOp, user: string, target: string, id: string)
    requires Inv(s) && AllBacked(s)
    requires || op == Accept(user, target, id) || op == Reject(user, target, id) || op == Cancel(user, target, id)
             || op == Timeout(user, target, id) || op == Hangup(user, target, id)
             || (op.Signal? && op == Signal(user, target, id, op.kind))
    ensures Judge(s.shared.calls, op) == Done ==> target in s.shared.online
  {
    hide Inv, Judge;
    if Judge(s.shared.calls, op) == Done {
      PeerIsInCall(s.shared.calls, op, user, target, id);
      assert BacksCalls(s, target);
    }
  }
}
