/** What holds in every state of every interleaving of the handlers, and what more holds when
    requests run one at a time. */
module ProtocolSafety {
  import opened Names
  import opened Users
  import R = Rooms
  import opened Calls
  import opened ChatProtocol

  datatype System = System(shared: Shared, locals: map<Conn, Local>)

  // ---------------------------------------------------------------------------------------------
  // Runs
  // ---------------------------------------------------------------------------------------------

  const Empty := System(Shared(map[], map[], map[]), map[])

  datatype Action = Connect(conn: Conn) | Take(conn: Conn, request: Request) | Step(conn: Conn)

  ghost predicate Enabled(s: System, a: Action) {
    match a
    case Connect(c) => c !in s.locals
    case Take(c, _) => c in s.locals && s.locals[c].stage.Idle?
    case Step(c) => c in s.locals && !s.locals[c].Resting() && Matching(s.shared.calls)
  }

  ghost function Apply(s: System, a: Action): System
    requires Enabled(s, a)
  {
    match a
    case Connect(c) => s.(locals := s.locals[c := Local("", Idle)])
    case Take(c, request) => s.(locals := s.locals[c := Begin(c, s.locals[c], request).0])
    case Step(c) =>
      var o := Advance(c, s.shared, s.locals[c]);
      System(o.shared, s.locals[c := o.local])
  }

  /** `states` is a run: the server starts empty, and each state follows by one step of one session. */
  ghost predicate IsRun(states: seq<System>) {
    && states != [] && states[0] == Empty
    && forall i | 0 <= i < |states| - 1 :: CanStep(states[i], states[i + 1])
  }

  ghost predicate Reachable(s: System) {
    exists states: seq<System> :: IsRun(states) && Last(states) == s
  }

  function Last<T>(xs: seq<T>): T
    requires xs != []
  {
    xs[|xs| - 1]
  }

  ghost predicate CanStep(s: System, s': System) {
    exists a :: Enabled(s, a) && s' == Apply(s, a)
  }

  // ---------------------------------------------------------------------------------------------
  // Safety
  // ---------------------------------------------------------------------------------------------

  // logout has not yet removed this session's call ...
  predicate BeforeDropCalls(l: Local) {
    !(l.stage.NotifyPeer? || l.stage.DropRooms? || l.stage.DropName? || l.stage.ClearName?)
  }

  // ... or not yet taken its user out of the rooms.
  predicate BeforeDropRooms(l: Local) {
    !(l.stage.DropName? || l.stage.ClearName?)
  }

  ghost predicate BacksCalls(s: System, u: string) {
    && u in s.shared.online && s.shared.online[u] in s.locals
    && s.locals[s.shared.online[u]].username == u && BeforeDropCalls(s.locals[s.shared.online[u]])
  }

  ghost predicate BacksRooms(s: System, u: string) {
    && u in s.shared.online && s.shared.online[u] in s.locals
    && s.locals[s.shared.online[u]].username == u && BeforeDropRooms(s.locals[s.shared.online[u]])
  }

  /** The caller of every call, both parties of every accepted call, and every member of every room
      are online, through a session that has not passed the matching step of its logout; and no two
      sessions are logged in under one name. */
  ghost predicate Safe(s: System) {
    && Matching(s.shared.calls)
    && (forall k | k in s.shared.calls :: BacksCalls(s, s.shared.calls[k].caller))
    && (forall k | k in s.shared.calls && s.shared.calls[k].accepted :: BacksCalls(s, s.shared.calls[k].callee))
    && (forall r, u | R.IsMember(s.shared.rooms, r, u) :: BacksRooms(s, u))
    && (forall c, c' | c in s.locals && c' in s.locals && c != c' && s.locals[c].Resting() && s.locals[c'].Resting() ::
          s.locals[c].username != "" ==> s.locals[c].username != s.locals[c'].username)
  }

  // The name this session owns in users_ of the user manager.
  function OwnedName(l: Local): string {
    if l.stage.StoreName? then l.stage.name else if l.stage.ClearName? then "" else l.username
  }

  predicate RefOk(l: Local, call: Ref) {
    call.user == l.username && call.user != call.target && call.user != ""
  }

  predicate LocalOk(l: Local) {
    match l.stage
    case Idle => true
    case Closed => l.username == ""
    case RegisterName(_) => l.username == ""
    case StoreName(name) => l.username == "" && name != ""
    case InviteLookup(call) => RefOk(l, call)
    case InviteStart(call) => RefOk(l, call)
    case InviteRecheck(call) => RefOk(l, call)
    case InviteCancel(call) => RefOk(l, call)
    case CallUpdate(_, call, _) => RefOk(l, call)
    case CallNotify(_, call, _) => RefOk(l, call)
    case AcceptRollback(call) => RefOk(l, call)
    case SignalCheck(_, call, _) => RefOk(l, call)
    case SignalRoute(_, call, _) => RefOk(l, call)
    case SignalRollback(call) => RefOk(l, call)
    case _ => l.username != ""
  }

  /** users_ and the sessions agree on who owns which name. */
  ghost predicate Registered(s: System) {
    && (forall c | c in s.locals :: LocalOk(s.locals[c]))
    && (forall c | c in s.locals && OwnedName(s.locals[c]) != "" ::
          OwnedName(s.locals[c]) in s.shared.online && s.shared.online[OwnedName(s.locals[c])] == c)
    && (forall u | u in s.shared.online ::
          s.shared.online[u] in s.locals && OwnedName(s.locals[s.shared.online[u]]) == u && u != "")
  }

  ghost predicate CallsBacked(s: System) {
    && Matching(s.shared.calls)
    && (forall k | k in s.shared.calls :: BacksCalls(s, s.shared.calls[k].caller))
    && (forall k | k in s.shared.calls && s.shared.calls[k].accepted :: BacksCalls(s, s.shared.calls[k].callee))
  }

  ghost predicate RoomsBacked(s: System) {
    forall r, u | R.IsMember(s.shared.rooms, r, u) :: BacksRooms(s, u)
  }

  ghost predicate Inv(s: System) {
    Registered(s) && CallsBacked(s) && RoomsBacked(s)
  }

  // ---------------------------------------------------------------------------------------------
  // What one step of one session may do
  // ---------------------------------------------------------------------------------------------

  /** A session touches no entry of users_ but its own, and owns at most one. */
  ghost predicate OwnsItsName(c: Conn, online: OnlineMap, l: Local) {
    && LocalOk(l)
    && (OwnedName(l) != "" ==> OwnedName(l) in online && online[OwnedName(l)] == c)
    && (forall u | u in online && online[u] == c :: u == OwnedName(l) && u != "")
  }

  ghost predicate LeavesOthers(c: Conn, online: OnlineMap, online': OnlineMap) {
    && (forall u | u in online && online[u] != c :: u in online' && online'[u] == online[u])
    && (forall u | u in online' && online'[u] != c :: u in online && online[u] == online'[u])
  }

  /** Calls stay as they are, or end, or the session's own user starts one or accepts one before his
      logout; once his logout has dropped his call, none of the calls left has him. */
  ghost predicate CallsStep(calls: CallMap, l: Local, calls': CallMap, l': Local) {
    && Matching(calls')
    && forall k | k in calls' ::
         || (k in calls && calls'[k] == calls[k]
             && (BeforeDropCalls(l) && !BeforeDropCalls(l') ==> !calls[k].Has(l.username)))
         || (BeforeDropCalls(l') && l'.username == l.username && l.username != ""
             && if calls'[k].accepted
                then calls'[k].callee == l.username && k in calls && calls[k].caller == calls'[k].caller
                else calls'[k].caller == l.username)
  }

  ghost predicate RoomsStep(rooms: R.RoomMap, l: Local, rooms': R.RoomMap, l': Local) {
    forall r, u | R.IsMember(rooms', r, u) ::
      || (R.IsMember(rooms, r, u) && (BeforeDropRooms(l) && !BeforeDropRooms(l') ==> u != l.username))
      || (BeforeDropRooms(l') && l'.username == l.username && u == l.username && u != "")
  }

  ghost predicate Moves(c: Conn, g: Shared, l: Local, g': Shared, l': Local) {
    && OwnsItsName(c, g'.online, l') && LeavesOthers(c, g.online, g'.online)
    && CallsStep(g.calls, l, g'.calls, l') && RoomsStep(g.rooms, l, g'.rooms, l')
    && (l.username != "" && l.username != l'.username ==> l.stage.ClearName?)
  }

  predicate TouchesNames(stage: Stage) {
    stage.RegisterName? || stage.StoreName? || stage.DropName? || stage.ClearName?
  }

  predicate TouchesCalls(stage: Stage) {
    || stage.DropCalls? || stage.InviteStart? || stage.InviteCancel? || stage.CallUpdate?
    || stage.AcceptRollback? || stage.SignalRollback?
  }

  lemma AdvanceKeepsNames(c: Conn, g: Shared, l: Local)
    requires Matching(g.calls) && !l.Resting() && LocalOk(l) && !TouchesNames(l.stage)
    ensures var o := Advance(c, g, l);
            && o.shared.online == g.online && o.local.username == l.username && LocalOk(o.local)
            && !o.local.stage.StoreName? && !o.local.stage.ClearName?
  {
    if InLogout(l.stage) {
      LogoutKeepsNames(c, g, l);
    } else if InRoom(l.stage) {
      RoomKeepsNames(c, g, l);
    } else if InInvite(l.stage) {
      InviteKeepsNames(c, g, l);
    } else if InUpdate(l.stage) {
      UpdateKeepsNames(c, g, l);
    } else {
      SignalKeepsNames(c, g, l);
    }
    hide AdvanceLogin, AdvanceLogout, AdvanceRoom, AdvanceInvite, AdvanceUpdate, AdvanceSignal, LocalOk;
  }

  ghost predicate KeepsNames(g: Shared, l: Local, o: Outcome) {
    && o.shared.online == g.online && o.local.username == l.username && LocalOk(o.local)
    && !o.local.stage.StoreName? && !o.local.stage.ClearName?
  }

  lemma LogoutKeepsNames(c: Conn, g: Shared, l: Local)
    requires Matching(g.calls) && LocalOk(l) && InLogout(l.stage) && !TouchesNames(l.stage)
    ensures KeepsNames(g, l, AdvanceLogout(c, g, l))
  {
    hide Judge, After, Matching, R.WithoutUser;
  }

  lemma RoomKeepsNames(c: Conn, g: Shared, l: Local)
    requires Matching(g.calls) && LocalOk(l) && InRoom(l.stage)
    ensures KeepsNames(g, l, AdvanceRoom(c, g, l))
  {
    hide Matching, IsValidName;
  }

  lemma InviteKeepsNames(c: Conn, g: Shared, l: Local)
    requires Matching(g.calls) && LocalOk(l) && InInvite(l.stage)
    ensures KeepsNames(g, l, AdvanceInvite(c, g, l))
  {
    hide Judge, After, Matching;
  }

  lemma UpdateKeepsNames(c: Conn, g: Shared, l: Local)
    requires Matching(g.calls) && LocalOk(l) && InUpdate(l.stage)
    ensures KeepsNames(g, l, AdvanceUpdate(c, g, l))
  {
    hide Judge, After, Matching;
  }

  lemma SignalKeepsNames(c: Conn, g: Shared, l: Local)
    requires Matching(g.calls) && LocalOk(l) && InSignal(l.stage)
    ensures KeepsNames(g, l, AdvanceSignal(c, g, l))
  {
    hide Judge, After, Matching;
  }

  lemma AdvanceOwns(c: Conn, g: Shared, l: Local)
    requires Matching(g.calls) && !l.Resting() && OwnsItsName(c, g.online, l)
    ensures var o := Advance(c, g, l);
            && OwnsItsName(c, o.shared.online, o.local) && LeavesOthers(c, g.online, o.shared.online)
            && (l.username != "" && l.username != o.local.username ==> l.stage.ClearName?)
  {
    if !TouchesNames(l.stage) { AdvanceKeepsNames(c, g, l); }
  }

  lemma AdvanceKeepsCalls(c: Conn, g: Shared, l: Local)
    requires Matching(g.calls) && !l.Resting() && LocalOk(l) && !TouchesCalls(l.stage)
    ensures Advance(c, g, l).shared.calls == g.calls
    ensures BeforeDropCalls(l) ==> BeforeDropCalls(Advance(c, g, l).local)
  {
  }

  lemma AdvanceInCall(c: Conn, g: Shared, l: Local)
    requires Matching(g.calls) && LocalOk(l) && TouchesCalls(l.stage) && !l.stage.DropCalls? && !l.stage.InviteStart?
    ensures CallsStep(g.calls, l, Advance(c, g, l).shared.calls, Advance(c, g, l).local)
  {
    OpCallsStep(g.calls, l, Advance(c, g, l).local, OpAt(l));
    AdvanceIsOp(c, g, l);
    hide Advance, After, Judge, Matching, CallsStep;
  }

  // The operation of the call manager a session is about to perform.
  function OpAt(l: Local): CallOp
    requires TouchesCalls(l.stage)
  {
    match l.stage
    case DropCalls(_) => Remove(l.username)
    case InviteStart(call) => Start(call.user, call.target, call.id)
    case InviteCancel(call) => Cancel(call.user, call.target, call.id)
    case CallUpdate(kind, call, _) => OpOf(kind, call)
    case AcceptRollback(call) => Hangup(call.user, call.target, call.id)
    case SignalRollback(call) => Hangup(call.user, call.target, call.id)
  }

  lemma AdvanceIsOp(c: Conn, g: Shared, l: Local)
    requires Matching(g.calls) && LocalOk(l) && TouchesCalls(l.stage) && !l.stage.DropCalls? && !l.stage.InviteStart?
    ensures var o := Advance(c, g, l);
            && o.shared.calls == After(g.calls, OpAt(l)) && BeforeDropCalls(o.local) && o.local.username == l.username
            && !o.local.stage.InviteStart? && o.local.username != ""
            && !OpAt(l).Start? && !OpAt(l).Remove? && (OpAt(l).Accept? ==> OpAt(l).callee == l.username)
  {
    hide Judge, Matching;
    assert Judge(g.calls, OpAt(l)) != Done ==> After(g.calls, OpAt(l)) == g.calls by { RefusedChangesNothing(g.calls, OpAt(l)); }
    hide After;
  }

  lemma RefusedChangesNothing(calls: CallMap, op: CallOp)
    requires Matching(calls)
    ensures Judge(calls, op) != Done ==> After(calls, op) == calls
  {
    hide Judge;
  }

  lemma OpCallsStep(calls: CallMap, l: Local, l': Local, op: CallOp)
    requires Matching(calls) && !op.Start? && !op.Remove? && (op.Accept? ==> op.callee == l.username)
    requires BeforeDropCalls(l') && l'.username == l.username && l.username != ""
    ensures CallsStep(calls, l, After(calls, op), l')
  {
    MatchingPreserved(calls, op);
    hide Matching, Busy;
  }

  lemma AdvanceToInvite(c: Conn, g: Shared, l: Local)
    requires Matching(g.calls) && LocalOk(l) && l.stage.InviteStart?
    ensures CallsStep(g.calls, l, Advance(c, g, l).shared.calls, Advance(c, g, l).local)
  {
    AdvanceKeepsMatching(c, g, l);
  }

  lemma AdvanceCalls(c: Conn, g: Shared, l: Local)
    requires Matching(g.calls) && !l.Resting() && LocalOk(l)
    ensures CallsStep(g.calls, l, Advance(c, g, l).shared.calls, Advance(c, g, l).local)
  {
    if !TouchesCalls(l.stage) {
      AdvanceKeepsCalls(c, g, l);
    } else if l.stage.InviteStart? {
      AdvanceToInvite(c, g, l);
    } else if !l.stage.DropCalls? {
      AdvanceInCall(c, g, l);
    } else {
      AdvanceKeepsMatching(c, g, l);
      if Busy(g.calls, l.username) {
        assert forall k | k in g.calls && g.calls[k].Has(l.username) :: k == CallOf(g.calls, l.username);
      }
    }
  }

  lemma AdvanceRooms(c: Conn, g: Shared, l: Local)
    requires Matching(g.calls) && !l.Resting() && LocalOk(l)
    ensures RoomsStep(g.rooms, l, Advance(c, g, l).shared.rooms, Advance(c, g, l).local)
  {
    if InRoom(l.stage) {
      RoomRoomsStep(c, g, l);
    } else if l.stage.DropRooms? {
      LeaveRoomsStep(c, g, l);
    } else {
      OtherRoomsStep(c, g, l);
    }
    hide Advance, RoomsStep, LocalOk, Matching;
  }

  lemma RoomRoomsStep(c: Conn, g: Shared, l: Local)
    requires Matching(g.calls) && InRoom(l.stage) && LocalOk(l)
    ensures RoomsStep(g.rooms, l, Advance(c, g, l).shared.rooms, Advance(c, g, l).local)
  {
    hide Matching, IsValidName, AdvanceLogin, AdvanceLogout, AdvanceInvite, AdvanceUpdate, AdvanceSignal;
  }

  lemma LeaveRoomsStep(c: Conn, g: Shared, l: Local)
    requires Matching(g.calls) && l.stage.DropRooms?
    ensures RoomsStep(g.rooms, l, Advance(c, g, l).shared.rooms, Advance(c, g, l).local)
  {
    hide Matching, AdvanceLogin, AdvanceRoom, AdvanceInvite, AdvanceUpdate, AdvanceSignal;
  }

  lemma OtherRoomsStep(c: Conn, g: Shared, l: Local)
    requires Matching(g.calls) && !l.Resting() && !InRoom(l.stage) && !l.stage.DropRooms?
    ensures RoomsStep(g.rooms, l, Advance(c, g, l).shared.rooms, Advance(c, g, l).local)
  {
    hide Advance, R.IsMember, BeforeDropRooms, Matching;
    SameRooms(c, g, l);
    StillBeforeDropRooms(c, g, l);
  }

  lemma SameRooms(c: Conn, g: Shared, l: Local)
    requires Matching(g.calls) && !l.Resting() && !InRoom(l.stage) && !l.stage.DropRooms?
    ensures Advance(c, g, l).shared.rooms == g.rooms
  {
    hide Judge, After, Matching, Busy, IsValidName;
  }

  lemma StillBeforeDropRooms(c: Conn, g: Shared, l: Local)
    requires Matching(g.calls) && !l.Resting() && !InRoom(l.stage) && !l.stage.DropRooms?
    ensures BeforeDropRooms(l) ==> BeforeDropRooms(Advance(c, g, l).local)
  {
    hide Judge, After, Matching, Busy, IsValidName;
  }

  lemma BeginMoves(c: Conn, g: Shared, l: Local, request: Request)
    requires Matching(g.calls) && l.stage.Idle? && OwnsItsName(c, g.online, l)
    ensures Moves(c, g, l, g, Begin(c, l, request).0)
  {
    hide IsValidName, IsValidCallId, Matching;
  }

  // ---------------------------------------------------------------------------------------------
  // The invariant survives every such step
  // ---------------------------------------------------------------------------------------------

  lemma RegisteredKept(s: System, c: Conn, g': Shared, l': Local)
    requires Registered(s) && c in s.locals && Moves(c, s.shared, s.locals[c], g', l')
    ensures Registered(System(g', s.locals[c := l']))
  {
    var next := System(g', s.locals[c := l']);
    forall d | d in next.locals && OwnedName(next.locals[d]) != ""
      ensures OwnedName(next.locals[d]) in g'.online && g'.online[OwnedName(next.locals[d])] == d
    {
      if d != c { assert s.shared.online[OwnedName(s.locals[d])] == d; }
    }
    forall u | u in g'.online
      ensures g'.online[u] in next.locals && OwnedName(next.locals[g'.online[u]]) == u && u != ""
    {
      if g'.online[u] != c { assert u in s.shared.online && s.shared.online[u] == g'.online[u]; }
    }
  }

  lemma CallsBackedKept(s: System, c: Conn, g': Shared, l': Local)
    requires Registered(s) && CallsBacked(s) && c in s.locals && Moves(c, s.shared, s.locals[c], g', l')
    ensures CallsBacked(System(g', s.locals[c := l']))
  {
    hide BacksCalls, BeforeDropCalls, Registered, RoomsStep, Matching, OwnsItsName, LeavesOthers;
    BackingsMoved(s, c, g', l');
    if BeforeDropCalls(l') && l'.username == s.locals[c].username && l'.username != "" { OwnBackingMoved(s, c, g', l'); }
  }

  lemma BackingsMoved(s: System, c: Conn, g': Shared, l': Local)
    requires Registered(s) && c in s.locals && Moves(c, s.shared, s.locals[c], g', l')
    ensures var l := s.locals[c];
            forall u | BacksCalls(s, u) && !(u == l.username && BeforeDropCalls(l) && !BeforeDropCalls(l')) ::
              BacksCalls(System(g', s.locals[c := l']), u)
  {
    hide BacksCalls, BeforeDropCalls, Registered, Moves;
    var l := s.locals[c];
    forall u | BacksCalls(s, u) && !(u == l.username && BeforeDropCalls(l) && !BeforeDropCalls(l'))
      ensures BacksCalls(System(g', s.locals[c := l']), u)
    {
      BackingMoved(s, c, g', l', u);
    }
  }

  lemma BackingMoved(s: System, c: Conn, g': Shared, l': Local, u: string)
    requires Registered(s) && c in s.locals && Moves(c, s.shared, s.locals[c], g', l') && BacksCalls(s, u)
    requires !(u == s.locals[c].username && BeforeDropCalls(s.locals[c]) && !BeforeDropCalls(l'))
    ensures BacksCalls(System(g', s.locals[c := l']), u)
  {
    hide CallsStep, RoomsStep;
  }

  lemma OwnBackingMoved(s: System, c: Conn, g': Shared, l': Local)
    requires Registered(s) && c in s.locals && Moves(c, s.shared, s.locals[c], g', l')
    requires BeforeDropCalls(l') && l'.username == s.locals[c].username && l'.username != ""
    ensures BacksCalls(System(g', s.locals[c := l']), l'.username)
  {
    hide CallsStep, RoomsStep;
  }

  lemma RoomsBackedKept(s: System, c: Conn, g': Shared, l': Local)
    requires Registered(s) && RoomsBacked(s) && c in s.locals && Moves(c, s.shared, s.locals[c], g', l')
    ensures RoomsBacked(System(g', s.locals[c := l']))
  {
    var next, l := System(g', s.locals[c := l']), s.locals[c];
    forall u | BacksRooms(s, u) && !(u == l.username && BeforeDropRooms(l) && !BeforeDropRooms(l'))
      ensures BacksRooms(next, u)
    {
    }
    if BeforeDropRooms(l') && l'.username == l.username && l.username != "" {
      assert BacksRooms(next, l.username);
    }
  }

  // A new session does not stand in anybody's way.
  lemma ConnectBacks(s: System, c: Conn)
    requires Registered(s) && c !in s.locals
    ensures var next := Apply(s, Connect(c));
            forall u :: (BacksCalls(s, u) ==> BacksCalls(next, u)) && (BacksRooms(s, u) ==> BacksRooms(next, u))
  {
    assert forall u | u in s.shared.online :: s.shared.online[u] != c;
    hide Registered;
  }

  lemma OwnsAndOk(s: System, c: Conn)
    requires Registered(s) && c in s.locals
    ensures LocalOk(s.locals[c]) && OwnsItsName(c, s.shared.online, s.locals[c])
  {
  }

  lemma StepMoves(c: Conn, g: Shared, l: Local)
    requires Matching(g.calls) && !l.Resting() && LocalOk(l) && OwnsItsName(c, g.online, l)
    ensures Moves(c, g, l, Advance(c, g, l).shared, Advance(c, g, l).local)
  {
    hide Advance, Matching, LocalOk, OwnsItsName, LeavesOthers, CallsStep, RoomsStep;
    AdvanceOwns(c, g, l);
    AdvanceCalls(c, g, l);
    AdvanceRooms(c, g, l);
  }

  lemma InvKept(s: System, a: Action)
    requires Inv(s) && Enabled(s, a)
    ensures Inv(Apply(s, a))
  {
    var c := a.conn;
    if a.Connect? {
      ConnectBacks(s, c);
      hide BacksCalls, BacksRooms, Matching;
    } else {
      var l := s.locals[c];
      hide Moves, Advance, Begin, RoomsBacked, CallsBacked;
      OwnsAndOk(s, c);
      var g', l';
      if a.Step? {
        StepMoves(c, s.shared, l);
        g', l' := Advance(c, s.shared, l).shared, Advance(c, s.shared, l).local;
      } else {
        BeginMoves(c, s.shared, l, a.request);
        g', l' := s.shared, Begin(c, l, a.request).0;
      }
      RegisteredKept(s, c, g', l');
      CallsBackedKept(s, c, g', l');
      RoomsBackedKept(s, c, g', l');
    }
  }

  lemma CanStepKeepsInv(s: System, s': System)
    requires Inv(s) && CanStep(s, s')
    ensures Inv(s')
  {
    var a :| Enabled(s, a) && s' == Apply(s, a);
    InvKept(s, a);
  }

  lemma InvIsSafe(s: System)
    requires Inv(s)
    ensures Safe(s)
  {
    forall c, c' | c in s.locals && c' in s.locals && c != c' && s.locals[c].Resting() && s.locals[c'].Resting()
                   && s.locals[c].username != ""
      ensures s.locals[c].username != s.locals[c'].username
    {
      assert OwnedName(s.locals[c]) == s.locals[c].username && OwnedName(s.locals[c']) == s.locals[c'].username;
    }
  }

  lemma EmptyInv()
    ensures Inv(Empty)
  {
  }

  lemma {:induction false} RunsKeepInv(states: seq<System>)
    requires IsRun(states)
    ensures Inv(Last(states))
  {
    hide Inv, CanStep;
    var n := |states| - 1;
    if n == 0 {
      EmptyInv();
    } else {
      var before := states[..n];
      assert forall i | 0 <= i < n :: before[i] == states[i];
      RunsKeepInv(before);
      CanStepKeepsInv(states[n - 1], states[n]);
    }
  }

  /** In every state of every interleaving at mutex granularity, the server is safe. */
  lemma EveryInterleavingIsSafe(s: System)
    requires Reachable(s)
    ensures Safe(s)
  {
    var states :| IsRun(states) && Last(states) == s;
    RunsKeepInv(states);
    InvIsSafe(s);
  }

  // ---------------------------------------------------------------------------------------------
  // The one exemption
  // ---------------------------------------------------------------------------------------------

  ghost predicate RingsOffline(s: System, k: string) {
    k in s.shared.calls && !s.shared.calls[k].accepted && s.shared.calls[k].callee !in s.shared.online
  }

  lemma ReachFurther(s: System, a: Action)
    requires Reachable(s) && Enabled(s, a)
    ensures Reachable(Apply(s, a))
  {
    var states :| IsRun(states) && Last(states) == s;
    var longer := states + [Apply(s, a)];
    forall i | 0 <= i < |longer| - 1 ensures CanStep(longer[i], longer[i + 1]) {
      if i < |states| - 1 { assert CanStep(states[i], states[i + 1]); } else { assert Enabled(s, a); }
    }
    assert IsRun(longer) && Last(longer) == Apply(s, a);
  }

  lemma ReachLogin(s: System, c: Conn, name: string)
    requires Reachable(s) && c in s.locals && s.locals[c] == Local("", Idle)
    requires IsValidName(name) && name !in s.shared.online && Matching(s.shared.calls)
    ensures Reachable(System(s.shared.(online := s.shared.online[name := c]), s.locals[c := Local(name, Idle)]))
  {
    ReachFurther(s, Take(c, Login(name)));
    var s1 := Apply(s, Take(c, Login(name)));
    assert s1.locals[c] == Local("", RegisterName(name)) && s1.shared == s.shared;
    ReachFurther(s1, Step(c));
    var s2 := Apply(s1, Step(c));
    assert s2.locals[c] == Local("", StoreName(name)) && s2.shared == s.shared.(online := s.shared.online[name := c]);
    ReachFurther(s2, Step(c));
    assert Apply(s2, Step(c)).locals == s.locals[c := Local(name, Idle)];
  }

  // "a" invites "b" while "b" is logging out: the invitation is recorded after "b" dropped his calls
  // and before he gives up his name.
  lemma ReachInviteDuringLogout(s: System)
    requires s == System(Shared(map["a" := 1, "b" := 2], map[], map[]), map[1 := Local("a", Idle), 2 := Local("b", Idle)])
    requires Reachable(s)
    ensures exists t :: Reachable(t) && t.shared.online == s.shared.online
              && t.shared.calls == map["k" := CallRecord("a", "b", false)]
              && 2 in t.locals && t.locals[2] == Local("b", DropRooms(false))
  {
    var invite := Call(CallInvite, "b", "k", "video", "", "");
    var call := Ref("a", "b", "k");
    ReachFurther(s, Take(1, invite));
    var s1 := Apply(s, Take(1, invite));
    assert s1 == s.(locals := s.locals[1 := Local("a", InviteLookup(call))]);
    ReachFurther(s1, Step(1));
    var s2 := Apply(s1, Step(1));
    assert s2 == s.(locals := s.locals[1 := Local("a", InviteStart(call))]);
    ReachFurther(s2, Take(2, Logout));
    var s3 := Apply(s2, Take(2, Logout));
    assert s3 == s.(locals := s2.locals[2 := Local("b", DropCalls(false))]);
    hide Reachable, Advance, Begin;
    ReachInviteRecorded(s3);
  }

  lemma ReachInviteRecorded(s: System)
    requires s.shared == Shared(map["a" := 1, "b" := 2], map[], map[]) && Reachable(s)
    requires s.locals == map[1 := Local("a", InviteStart(Ref("a", "b", "k"))), 2 := Local("b", DropCalls(false))]
    ensures exists t :: Reachable(t) && t.shared.online == s.shared.online
              && t.shared.calls == map["k" := CallRecord("a", "b", false)]
              && 2 in t.locals && t.locals[2] == Local("b", DropRooms(false))
  {
    hide Reachable;
    ReachFurther(s, Step(2));
    var s4 := Apply(s, Step(2));
    assert s4 == s.(locals := s.locals[2 := Local("b", DropRooms(false))]);
    ReachFurther(s4, Step(1));
    assert Apply(s4, Step(1)).shared.calls == map["k" := CallRecord("a", "b", false)];
  }

  /** A ringing callee can outlive his session: the exemption in `Safe` is needed. */
  lemma RingingCalleeCanBeOffline()
    ensures exists s, k :: Reachable(s) && RingsOffline(s, k)
  {
    assert IsRun([Empty]) && Last([Empty]) == Empty;
    ReachFurther(Empty, Connect(1));
    ReachFurther(Apply(Empty, Connect(1)), Connect(2));
    var s := Apply(Apply(Empty, Connect(1)), Connect(2));
    ReachLogin(s, 1, "a");
    var s1 := System(Shared(map["a" := 1], map[], map[]), map[1 := Local("a", Idle), 2 := Local("", Idle)]);
    assert s1.locals == s.locals[1 := Local("a", Idle)];
    ReachLogin(s1, 2, "b");
    var s2 := System(Shared(map["a" := 1, "b" := 2], map[], map[]), map[1 := Local("a", Idle), 2 := Local("b", Idle)]);
    assert s2.locals == s1.locals[2 := Local("b", Idle)] && s2.shared.online == s1.shared.online["b" := 2];
    ReachInviteDuringLogout(s2);
    var t :| Reachable(t) && t.shared.online == s2.shared.online && t.shared.calls == map["k" := CallRecord("a", "b", false)]
             && 2 in t.locals && t.locals[2] == Local("b", DropRooms(false));
    DropRoomsThenName(t);
    var t2 := Apply(Apply(t, Step(2)), Step(2));
    assert RingsOffline(t2, "k");
  }

  lemma DropRoomsThenName(t: System)
    requires Reachable(t) && 2 in t.locals && t.locals[2] == Local("b", DropRooms(false))
    requires "b" in t.shared.online && t.shared.online["b"] == 2 && Matching(t.shared.calls)
    ensures Enabled(t, Step(2)) && Enabled(Apply(t, Step(2)), Step(2))
    ensures var t2 := Apply(Apply(t, Step(2)), Step(2));
            Reachable(t2) && "b" !in t2.shared.online && t2.shared.calls == t.shared.calls
  {
    ReachFurther(t, Step(2));
    ReachFurther(Apply(t, Step(2)), Step(2));
  }

  // ---------------------------------------------------------------------------------------------
  // Rooms
  // ---------------------------------------------------------------------------------------------

  /** No step of any session removes a room; and nobody gets into a room or out of it but by a step of a
      session of his own. */
  lemma StepKeepsRooms(s: System, a: Action)
    requires Enabled(s, a)
    ensures s.shared.rooms.Keys <= Apply(s, a).shared.rooms.Keys
    ensures forall r, u | R.IsMember(s.shared.rooms, r, u) != R.IsMember(Apply(s, a).shared.rooms, r, u) ::
              a.Step? && s.locals[a.conn].username == u
  {
    hide Begin, Matching;
    if a.Step? {
      var c, l := a.conn, s.locals[a.conn];
      AdvanceDispatches(c, s.shared, l);
      if InRoom(l.stage) {
        hide Advance;
      } else if !l.stage.DropRooms? {
        SameRooms(c, s.shared, l);
        hide Advance;
      }
    }
  }

  lemma CanStepKeepsRooms(s: System, s': System)
    requires CanStep(s, s')
    ensures s.shared.rooms.Keys <= s'.shared.rooms.Keys
  {
    hide Enabled, Apply;
    var a :| Enabled(s, a) && s' == Apply(s, a);
    StepKeepsRooms(s, a);
  }

  /** A room stays for good: once created it can be joined in every later state of every run. */
  lemma {:induction false} RoomsStay(states: seq<System>, i: nat, j: nat)
    requires IsRun(states) && i <= j < |states|
    ensures states[i].shared.rooms.Keys <= states[j].shared.rooms.Keys
    decreases j
  {
    hide CanStep;
    if i < j {
      RoomsStay(states, i, j - 1);
      assert CanStep(states[j - 1], states[j - 1 + 1]);
      CanStepKeepsRooms(states[j - 1], states[j]);
    }
  }

  // ---------------------------------------------------------------------------------------------
  // Rolling back
  // ---------------------------------------------------------------------------------------------

  /** An invitation whose target went offline after it was recorded leaves nothing behind: in two steps of
      its session, whatever others do before and in between, the call is not ringing any more, no other call
      has changed, and the caller is told. */
  lemma InviteRollsBack(c: Conn, g: Shared, g': Shared, call: Ref)
    requires Matching(g.calls) && Matching(g'.calls) && call.target !in g.online
    ensures var first := Advance(c, g, Local(call.user, InviteRecheck(call)));
            && first.shared == g && first.sent == [] && !first.local.Resting()
            && var ringing := call.id in g'.calls && g'.calls[call.id] == CallRecord(call.user, call.target, false);
               Advance(c, g', first.local) ==
               Outcome(if ringing then g'.(calls := g'.calls - {call.id}) else g', Local(call.user, Idle),
                       [Delivery(c, CallError(call.user, call.id, TargetOffline))])
  {
    hide Matching;
  }

  // ---------------------------------------------------------------------------------------------
  // Both participants online: exactly when
  // ---------------------------------------------------------------------------------------------

  ghost predicate AllBacked(s: System) {
    forall k, u | k in s.shared.calls && s.shared.calls[k].Has(u) :: BacksCalls(s, u)
  }

  /** An invitation is recorded although its target, who was found online, is not logged in, or his logout
      has already dropped his calls. */
  ghost predicate StartsUnbacked(s: System, a: Action) {
    && a.Step? && a.conn in s.locals && s.locals[a.conn].stage.InviteStart?
    && var call := s.locals[a.conn].stage.call;
       Judge(s.shared.calls, Start(call.user, call.target, call.id)) == Done && !BacksCalls(s, call.target)
  }

  lemma NoNewCalls(c: Conn, g: Shared, l: Local)
    requires Matching(g.calls) && !l.Resting() && LocalOk(l) && !l.stage.InviteStart?
    ensures var o := Advance(c, g, l);
            && (o.local.stage.InviteStart? ==> o.local.stage.call.target in o.shared.online)
            && forall k | k in o.shared.calls ::
                 && k in g.calls && o.shared.calls[k].caller == g.calls[k].caller && o.shared.calls[k].callee == g.calls[k].callee
                 && (BeforeDropCalls(l) && !BeforeDropCalls(o.local) ==> !g.calls[k].Has(l.username))
  {
    if !TouchesCalls(l.stage) {
      AdvanceKeepsCalls(c, g, l);
    } else if l.stage.DropCalls? {
      NoneOfTheUser(c, g, l);
    } else {
      NoNewParties(g.calls, OpAt(l));
      AdvanceIsOp(c, g, l);
    }
    if l.stage.InviteLookup? { LookupFinds(c, g, l); } else { NotToStart(c, g, l); }
    hide Advance, After, Judge, Matching, Busy, LocalOk, BeforeDropCalls;
  }

  lemma LookupFinds(c: Conn, g: Shared, l: Local)
    requires Matching(g.calls) && l.stage.InviteLookup?
    ensures var o := Advance(c, g, l); o.local.stage.InviteStart? ==> o.local.stage.call.target in o.shared.online
  {
    hide Matching;
  }

  lemma NotToStart(c: Conn, g: Shared, l: Local)
    requires Matching(g.calls) && !l.Resting() && !l.stage.InviteLookup?
    ensures !Advance(c, g, l).local.stage.InviteStart?
  {
    hide Matching, Judge, After, Busy, IsValidName, R.WithoutUser;
  }

  lemma NoneOfTheUser(c: Conn, g: Shared, l: Local)
    requires Matching(g.calls) && l.stage.DropCalls?
    ensures var o := Advance(c, g, l);
            forall k | k in o.shared.calls ::
              && k in g.calls && o.shared.calls[k] == g.calls[k] && !g.calls[k].Has(l.username)
  {
    if Busy(g.calls, l.username) {
      assert forall k | k in g.calls && g.calls[k].Has(l.username) :: k == CallOf(g.calls, l.username);
    }
    hide AdvanceLogin, AdvanceRoom, AdvanceInvite, AdvanceUpdate, AdvanceSignal, Judge;
  }

  lemma NoNewParties(calls: CallMap, op: CallOp)
    requires Matching(calls) && !op.Start?
    ensures forall k | k in After(calls, op) ::
              k in calls && After(calls, op)[k].caller == calls[k].caller && After(calls, op)[k].callee == calls[k].callee
  {
  }

  // Only the end of a logout separates a session from the name it had.
  lemma KeepsPastLogout(c: Conn, g: Shared, l: Local)
    requires Matching(g.calls) && !l.Resting() && OwnsItsName(c, g.online, l) && BeforeDropCalls(l) && l.username != ""
    ensures var o := Advance(c, g, l);
            o.local.username == l.username && l.username in o.shared.online && o.shared.online[l.username] == c
  {
    assert !TouchesNames(l.stage);
    AdvanceKeepsNames(c, g, l);
    assert OwnedName(l) == l.username;
  }

  lemma InviteStartsOneCall(c: Conn, g: Shared, l: Local)
    requires Matching(g.calls) && LocalOk(l) && l.stage.InviteStart?
    ensures var o := Advance(c, g, l);
            && !o.local.stage.InviteStart? && BeforeDropCalls(o.local)
            && forall k | k in o.shared.calls ::
                 || (k in g.calls && o.shared.calls[k] == g.calls[k])
                 || o.shared.calls[k] == CallRecord(l.username, l.stage.call.target, false)
  {
  }

  // A step takes no backing away but that of a user whose own logout drops his calls.
  lemma BackingStays(s: System, c: Conn, u: string)
    requires Inv(s) && Enabled(s, Step(c)) && BacksCalls(s, u)
    requires !(u == s.locals[c].username && BeforeDropCalls(s.locals[c])
               && !BeforeDropCalls(Advance(c, s.shared, s.locals[c]).local))
    ensures BacksCalls(Apply(s, Step(c)), u)
  {
    hide CallsBacked, RoomsBacked, Matching, Advance;
    var l := s.locals[c];
    AdvanceOwns(c, s.shared, l);
    if s.shared.online[u] == c { KeepsPastLogout(c, s.shared, l); }
  }

  lemma InviteBacking(s: System, c: Conn)
    requires Inv(s) && AllBacked(s) && Enabled(s, Step(c)) && s.locals[c].stage.InviteStart?
    ensures AllBacked(Apply(s, Step(c))) <==> !StartsUnbacked(s, Step(c))
  {
    var l, g, next := s.locals[c], s.shared, Apply(s, Step(c));
    var call := l.stage.call;
    InviteStartsOneCall(c, g, l);
    forall u | BacksCalls(s, u) ensures BacksCalls(next, u) { BackingStays(s, c, u); }
    assert BacksCalls(s, l.username) by { OwnBacking(s, c); }
    if StartsUnbacked(s, Step(c)) {
      UnbackedStays(s, c);
      assert next.shared.calls[call.id].Has(call.target);
    }
    hide Inv, BacksCalls, Matching;
  }

  lemma OwnBacking(s: System, c: Conn)
    requires Inv(s) && c in s.locals && s.locals[c].stage.InviteStart?
    ensures BacksCalls(s, s.locals[c].username) && s.locals[c].stage.call.user == s.locals[c].username
  {
    hide CallsBacked, RoomsBacked;
    assert OwnedName(s.locals[c]) == s.locals[c].username;
  }

  lemma UnbackedStays(s: System, c: Conn)
    requires Inv(s) && Enabled(s, Step(c)) && StartsUnbacked(s, Step(c))
    ensures var call := s.locals[c].stage.call; var next := Apply(s, Step(c));
            !BacksCalls(next, call.target) && call.id in next.shared.calls && next.shared.calls[call.id].callee == call.target
  {
    hide CallsBacked, RoomsBacked, Busy;
    var call := s.locals[c].stage.call;
    assert Advance(c, s.shared, s.locals[c]).shared.online == s.shared.online;
  }

  lemma OtherBacking(s: System, c: Conn)
    requires Inv(s) && AllBacked(s) && Enabled(s, Step(c)) && !s.locals[c].stage.InviteStart?
    ensures AllBacked(Apply(s, Step(c)))
  {
    var l, next := s.locals[c], Apply(s, Step(c));
    NoNewCalls(c, s.shared, l);
    hide Advance, Matching, BeforeDropCalls;
    forall k, u | k in next.shared.calls && next.shared.calls[k].Has(u) ensures BacksCalls(next, u) {
      assert s.shared.calls[k].Has(u);
      BackingStays(s, c, u);
    }
  }

  lemma ConnectKeepsBacking(s: System, c: Conn, u: string)
    requires c !in s.locals && BacksCalls(s, u)
    ensures BacksCalls(s.(locals := s.locals[c := Local("", Idle)]), u)
  {
  }

  lemma TakeKeepsBacking(s: System, c: Conn, request: Request, u: string)
    requires Enabled(s, Take(c, request)) && BacksCalls(s, u)
    ensures BacksCalls(Apply(s, Take(c, request)), u)
  {
  }

  /** From a state in which every participant of a call is online, a step leads to one in which somebody is
      not exactly if it records such an invitation. */
  lemma BackingKeptIff(s: System, a: Action)
    requires Inv(s) && AllBacked(s) && Enabled(s, a)
    ensures AllBacked(Apply(s, a)) <==> !StartsUnbacked(s, a)
  {
    hide Inv, BacksCalls, Advance, Begin, Matching;
    match a
    case Connect(c) => forall u | BacksCalls(s, u) ensures BacksCalls(Apply(s, a), u) { ConnectKeepsBacking(s, c, u); }
    case Take(c, request) => forall u | BacksCalls(s, u) ensures BacksCalls(Apply(s, a), u) { TakeKeepsBacking(s, c, request, u); }
    case Step(c) => if s.locals[c].stage.InviteStart? { InviteBacking(s, c); } else { OtherBacking(s, c); }
  }

  ghost predicate UnbackedBetween(s: System, s': System) {
    exists a :: Enabled(s, a) && s' == Apply(s, a) && StartsUnbacked(s, a)
  }

  // The step from one state to the next records such an invitation, whichever action it is taken for.
  lemma SteppedUnbacked(s: System, s': System)
    requires Inv(s) && AllBacked(s) && CanStep(s, s')
    ensures AllBacked(s') <==> !UnbackedBetween(s, s')
  {
    hide Inv, AllBacked, Enabled, Apply, StartsUnbacked;
    forall a | Enabled(s, a) && s' == Apply(s, a) ensures AllBacked(s') <==> !StartsUnbacked(s, a) { BackingKeptIff(s, a); }
    var a :| Enabled(s, a) && s' == Apply(s, a);
  }

  /** Over a whole run, both participants of every call are online in every state if and only if no step of
      it records such an invitation. */
  lemma {:induction false} AllBackedIffNoUnbackedStart(states: seq<System>)
    requires IsRun(states)
    ensures (forall i | 0 <= i < |states| :: AllBacked(states[i]))
            <==> (forall i | 0 <= i < |states| - 1 :: !UnbackedBetween(states[i], states[i + 1]))
    decreases |states|
  {
    hide Inv, CanStep, UnbackedBetween;
    var n := |states| - 1;
    if n == 0 {
      NobodyCalls();
    } else {
      var before := states[..n];
      assert forall i | 0 <= i < n :: before[i] == states[i];
      assert IsRun(before);
      AllBackedIffNoUnbackedStart(before);
      RunsKeepInv(before);
      assert forall i | 0 <= i < n - 1 :: UnbackedBetween(before[i], before[i + 1]) == UnbackedBetween(states[i], states[i + 1]);
      assert CanStep(states[n - 1], states[n]);
      if AllBacked(states[n - 1]) { SteppedUnbacked(states[n - 1], states[n]); }
      hide AllBacked, IsRun;
      SplitLast(states, n);
    }
  }

  lemma NobodyCalls()
    ensures AllBacked(Empty)
  {
  }

  lemma SplitLast(states: seq<System>, n: nat)
    requires n == |states| - 1 && n > 0
    ensures (forall i | 0 <= i < |states| :: AllBacked(states[i]))
            <==> (forall i | 0 <= i < n :: AllBacked(states[..n][i])) && AllBacked(states[n])
    ensures (forall i | 0 <= i < |states| - 1 :: !UnbackedBetween(states[i], states[i + 1]))
            <==> (forall i | 0 <= i < n - 1 :: !UnbackedBetween(states[..n][i], states[..n][i + 1]))
                 && !UnbackedBetween(states[n - 1], states[n])
  {
    hide AllBacked, UnbackedBetween;
    var before := states[..n];
    assert forall i | 0 <= i < n :: before[i] == states[i];
    forall i | 0 <= i < |states| - 1 && i != n - 1
      ensures UnbackedBetween(states[i], states[i + 1]) == UnbackedBetween(before[i], before[i + 1]) {}
  }

  // ---------------------------------------------------------------------------------------------
  // One request at a time
  // ---------------------------------------------------------------------------------------------

  ghost predicate OthersRest(s: System, c: Conn) {
    forall d | d in s.locals && d != c :: s.locals[d].Resting()
  }

  ghost predicate AllRest(s: System) {
    forall d | d in s.locals :: s.locals[d].Resting()
  }

  ghost predicate TargetFound(s: System, c: Conn) {
    c in s.locals && (s.locals[c].stage.InviteStart? ==> s.locals[c].stage.call.target in s.shared.online)
  }

  ghost predicate SerialInv(s: System, c: Conn) {
    Inv(s) && OthersRest(s, c) && AllBacked(s) && TargetFound(s, c)
  }

  ghost function RunRequest(s: System, c: Conn, request: Request): System
    requires Matching(s.shared.calls) && c in s.locals && s.locals[c].stage.Idle?
  {
    var o := Finish(c, s.shared, Begin(c, s.locals[c], request).0);
    System(o.shared, s.locals[c := o.local])
  }

  /** A run in which every request runs to its end before the next one starts. */
  ghost predicate IsSerialRun(states: seq<System>) {
    && states != [] && states[0] == Empty
    && forall i | 0 <= i < |states| - 1 :: CanServe(states[i], states[i + 1])
  }

  ghost predicate CanServe(s: System, s': System) {
    || (exists c | c !in s.locals :: s' == Apply(s, Connect(c)))
    || (exists c, request | c in s.locals && s.locals[c].stage.Idle? ::
          Matching(s.shared.calls) && s' == RunRequest(s, c, request))
  }

  lemma SerialStep(s: System, c: Conn)
    requires SerialInv(s, c) && !s.locals[c].Resting()
    ensures Enabled(s, Step(c)) && SerialInv(Apply(s, Step(c)), c)
  {
    InvKept(s, Step(c));
    NextTargetFound(s, c);
    if s.locals[c].stage.InviteStart? { TargetIsBacked(s, c); }
    BackingKeptIff(s, Step(c));
    hide Inv, AllBacked, TargetFound, Matching, BacksCalls, Advance;
  }

  // When all others rest, whoever is online is logged in.
  lemma TargetIsBacked(s: System, c: Conn)
    requires SerialInv(s, c) && s.locals[c].stage.InviteStart?
    ensures BacksCalls(s, s.locals[c].stage.call.target)
  {
    hide CallsBacked, RoomsBacked, AllBacked;
    var target := s.locals[c].stage.call.target;
    var d := s.shared.online[target];
    assert OwnedName(s.locals[d]) == target;
  }

  lemma NextTargetFound(s: System, c: Conn)
    requires SerialInv(s, c) && !s.locals[c].Resting()
    ensures Enabled(s, Step(c)) && TargetFound(Apply(s, Step(c)), c)
  {
    var l, g := s.locals[c], s.shared;
    if l.stage.InviteStart? { InviteStartsOneCall(c, g, l); } else { NoNewCalls(c, g, l); }
    hide Advance, AllBacked, RoomsBacked, BacksCalls, OthersRest;
  }

  lemma FinishUnfolds(s: System, c: Conn)
    requires Enabled(s, Step(c)) && CallsOthers(s.locals[c])
    ensures var next := Apply(s, Step(c));
            && Matching(next.shared.calls) && CallsOthers(next.locals[c])
            && StepsLeft(next.locals[c].stage) < StepsLeft(s.locals[c].stage)
            && Finish(c, s.shared, s.locals[c]).shared == Finish(c, next.shared, next.locals[c]).shared
            && Finish(c, s.shared, s.locals[c]).local == Finish(c, next.shared, next.locals[c]).local
            && var l := Finish(c, s.shared, s.locals[c]).local; next.locals[c := l] == s.locals[c := l]
  {
    AdvanceKeepsMatching(c, s.shared, s.locals[c]);
  }

  lemma {:induction false} FinishKeeps(s: System, c: Conn)
    requires SerialInv(s, c)
    ensures CallsOthers(s.locals[c])
    ensures var o := Finish(c, s.shared, s.locals[c]);
            var end := System(o.shared, s.locals[c := o.local]);
            SerialInv(end, c) && (Reachable(s) ==> Reachable(end))
    decreases StepsLeft(s.locals[c].stage)
  {
    if s.locals[c].Resting() {
      assert s == System(s.shared, s.locals[c := s.locals[c]]);
    } else {
      var next := Apply(s, Step(c));
      SerialStep(s, c);
      if Reachable(s) { ReachFurther(s, Step(c)); }
      FinishUnfolds(s, c);
      FinishKeeps(next, c);
    }
  }

  lemma TakeKeeps(s: System, c: Conn, request: Request)
    requires Inv(s) && AllRest(s) && AllBacked(s) && Enabled(s, Take(c, request))
    ensures SerialInv(Apply(s, Take(c, request)), c)
  {
    hide Inv, Begin, BacksCalls;
    var taken := Apply(s, Take(c, request));
    InvKept(s, Take(c, request));
    BeginsBeforeStart(c, s.locals[c], request);
    forall u | BacksCalls(s, u) ensures BacksCalls(taken, u) { TakeKeepsBacking(s, c, request, u); }
  }

  lemma BeginsBeforeStart(c: Conn, l: Local, request: Request)
    requires l.stage.Idle?
    ensures !Begin(c, l, request).0.stage.InviteStart?
  {
  }

  lemma RequestKeeps(s: System, c: Conn, request: Request)
    requires Inv(s) && AllRest(s) && AllBacked(s) && c in s.locals && s.locals[c].stage.Idle?
    ensures var next := RunRequest(s, c, request);
            Inv(next) && AllRest(next) && AllBacked(next) && (Reachable(s) ==> Reachable(next))
  {
    hide *;
    TakeThenFinish(s, c, request);
    if Reachable(s) { ReachFurther(s, Take(c, request)); }
    TakeKeeps(s, c, request);
    FinishKeeps(Apply(s, Take(c, request)), c);
    SerialInvParts(RunRequest(s, c, request), c);
  }

  lemma TakeThenFinish(s: System, c: Conn, request: Request)
    requires Inv(s) && c in s.locals && s.locals[c].stage.Idle?
    ensures Matching(s.shared.calls) && Enabled(s, Take(c, request))
    ensures var taken := Apply(s, Take(c, request));
            && c in taken.locals && Matching(taken.shared.calls)
            && (CallsOthers(taken.locals[c]) ==>
                  var o := Finish(c, taken.shared, taken.locals[c]);
                  && RunRequest(s, c, request) == System(o.shared, taken.locals[c := o.local])
                  && c in RunRequest(s, c, request).locals && RunRequest(s, c, request).locals[c].Resting())
  {
    hide Finish, Begin, CallsOthers, Matching;
    var taken := Apply(s, Take(c, request));
    if CallsOthers(taken.locals[c]) {
      var l := Finish(c, taken.shared, taken.locals[c]).local;
      assert taken.locals[c := l] == s.locals[c := l];
    }
  }

  lemma SerialInvParts(s: System, c: Conn)
    requires c in s.locals && s.locals[c].Resting()
    ensures SerialInv(s, c) ==> Inv(s) && AllRest(s) && AllBacked(s)
  {
    hide Inv, AllBacked;
  }

  lemma ServeKeeps(s: System, s': System)
    requires CanServe(s, s') && Inv(s) && AllRest(s) && AllBacked(s) && Reachable(s)
    ensures Inv(s') && AllRest(s') && AllBacked(s') && Reachable(s')
  {
    hide Inv, AllRest, AllBacked, Reachable, Begin, RunRequest, Matching;
    if c :| c !in s.locals && s' == Apply(s, Connect(c)) {
      InvKept(s, Connect(c));
      ReachFurther(s, Connect(c));
      ConnectKeeps(s, c);
    } else {
      var c, request :| c in s.locals && s.locals[c].stage.Idle? && Matching(s.shared.calls) && s' == RunRequest(s, c, request);
      RequestKeeps(s, c, request);
    }
  }

  lemma ConnectKeeps(s: System, c: Conn)
    requires Inv(s) && AllRest(s) && AllBacked(s) && c !in s.locals
    ensures AllRest(Apply(s, Connect(c))) && AllBacked(Apply(s, Connect(c)))
  {
    ConnectBacks(s, c);
    hide Inv, BacksCalls;
  }

  /** If whole requests are atomic there is no exemption: both users of every call are online. */
  lemma {:induction false} SerialRunsBackEveryParticipant(states: seq<System>)
    requires IsSerialRun(states)
    ensures var s := Last(states); Inv(s) && AllRest(s) && AllBacked(s) && Reachable(s)
  {
    var n := |states| - 1;
    if n > 0 {
      var before := states[..n];
      assert forall i | 0 <= i < n :: before[i] == states[i];
      SerialRunsBackEveryParticipant(before);
      var s := states[n - 1];
      assert CanServe(s, states[n]);
      ServeKeeps(s, states[n]);
    } else {
      assert IsRun([Empty]) && Last([Empty]) == Empty;
    }
  }
}
