/** The one-to-one call state machine of server/CallManager.cc.

    The source keeps two maps: users_ (what each busy user is doing) and calls_ (the calls).
    The class below keeps both and edits them in place, as the source does.  Its contracts are
    stated over calls_ alone: as long as the two maps agree (`Mirrors`), every long guard of the
    source decides a short question about one map of calls. */
module Calls {
  datatype CallUserState = CallIdle | CallCalling | CallRinging | CallInCall

  datatype UserCall = UserCall(state: CallUserState, callId: string, peer: string)

  datatype CallRecord = CallRecord(caller: string, callee: string, accepted: bool)
  {
    predicate Has(u: string) { caller == u || callee == u }

    function PeerOf(u: string): string { if caller == u then callee else caller }

    function StateOf(u: string): CallUserState {
      if accepted then CallInCall else if caller == u then CallCalling else CallRinging
    }

    // The call is established and joins exactly these two users.
    predicate Joins(u: string, peer: string) {
      accepted && ((caller == u && callee == peer) || (callee == u && caller == peer))
    }
  }

  datatype SignalKind = Offer | Answer | IceCandidate

  datatype CallReason =
    | CallerBusy | TargetBusy | DuplicateCallId
    | InvalidPendingCall | InvalidActiveCall
    | NotInSameActiveCall | OnlyCallerCanOffer | OnlyCalleeCanAnswer

  datatype Verdict = Done | Refused(reason: CallReason)

  datatype CallDisconnectEvent = CallDisconnectEvent(callId: string, peer: string, state: CallUserState)

  datatype Option<+T> = None | Some(value: T)

  type CallMap = map<string, CallRecord>

  // ---------------------------------------------------------------------------------------------
  // The one-map specification
  // ---------------------------------------------------------------------------------------------

  /** A partial matching of users: a call has two ends, and no user has an end of two calls. */
  ghost predicate Matching(calls: CallMap) {
    && (forall k | k in calls :: calls[k].caller != calls[k].callee)
    && (forall k, k', u | k in calls && k' in calls && calls[k].Has(u) && calls[k'].Has(u) :: k == k')
  }

  predicate Busy(calls: CallMap, u: string) {
    exists k | k in calls :: calls[k].Has(u)
  }

  function CallOf(calls: CallMap, u: string): (k: string)
    requires Matching(calls) && Busy(calls, u)
    ensures k in calls && calls[k].Has(u)
  {
    var k :| k in calls && calls[k].Has(u); k
  }

  // What an operation asks of the call id, and what it leaves behind.
  datatype CallOp =
    | Start(caller: string, callee: string, id: string)
    | Accept(callee: string, caller: string, id: string)
    | Reject(callee: string, caller: string, id: string)
    | Cancel(caller: string, callee: string, id: string)
    | Timeout(caller: string, callee: string, id: string)
    | Hangup(user: string, peer: string, id: string)
    | Signal(user: string, peer: string, id: string, kind: SignalKind)
    | Remove(user: string)

  predicate PendingIs(calls: CallMap, id: string, caller: string, callee: string) {
    id in calls && calls[id] == CallRecord(caller, callee, false)
  }

  predicate ActiveIs(calls: CallMap, id: string, u: string, peer: string) {
    id in calls && calls[id].Joins(u, peer)
  }

  function Judge(calls: CallMap, op: CallOp): Verdict {
    match op
    case Start(caller, callee, id) =>
      if Busy(calls, caller) then Refused(CallerBusy)
      else if Busy(calls, callee) then Refused(TargetBusy)
      else if id in calls then Refused(DuplicateCallId)
      else Done
    case Accept(callee, caller, id) =>
      if PendingIs(calls, id, caller, callee) then Done else Refused(InvalidPendingCall)
    case Reject(callee, caller, id) =>
      if PendingIs(calls, id, caller, callee) then Done else Refused(InvalidPendingCall)
    case Cancel(caller, callee, id) =>
      if PendingIs(calls, id, caller, callee) then Done else Refused(InvalidPendingCall)
    case Timeout(caller, callee, id) =>
      if PendingIs(calls, id, caller, callee) then Done else Refused(InvalidPendingCall)
    case Hangup(u, peer, id) =>
      if ActiveIs(calls, id, u, peer) then Done else Refused(InvalidActiveCall)
    case Signal(u, peer, id, kind) =>
      if !ActiveIs(calls, id, u, peer) then Refused(NotInSameActiveCall)
      else if kind == Offer && calls[id].caller != u then Refused(OnlyCallerCanOffer)
      else if kind == Answer && calls[id].callee != u then Refused(OnlyCalleeCanAnswer)
      else Done
    case Remove(_) => Done
  }

  function After(calls: CallMap, op: CallOp): CallMap
    requires Matching(calls)
  {
    if Judge(calls, op) != Done then calls else
    match op
    case Start(caller, callee, id) => calls[id := CallRecord(caller, callee, false)]
    case Accept(_, _, id) => calls[id := calls[id].(accepted := true)]
    case Reject(_, _, id) => calls - {id}
    case Cancel(_, _, id) => calls - {id}
    case Timeout(_, _, id) => calls - {id}
    case Hangup(_, _, id) => calls - {id}
    case Signal(_, _, _, _) => calls
    case Remove(u) => if Busy(calls, u) then calls - {CallOf(calls, u)} else calls
  }

  /** Who may do what, and what comes of it.  A call is started between two users of whom neither is in any
      call, under a fresh id; a ringing call is accepted or rejected by its callee and cancelled or timed out
      by its caller; an accepted call is hung up and signalled on by either user, but offered on only by
      its caller and answered on only by its callee. */
  lemma OperationLaw(calls: CallMap, op: CallOp)
    requires Matching(calls)
    ensures var done, next := Judge(calls, op) == Done, After(calls, op);
            && (!done ==> next == calls)
            && (op.Start? ==>
                  && (done <==> op.id !in calls && forall k | k in calls ::
                                  && calls[k].caller != op.caller && calls[k].callee != op.caller
                                  && calls[k].caller != op.callee && calls[k].callee != op.callee)
                  && (done ==> next == calls[op.id := CallRecord(op.caller, op.callee, false)]))
            && (op.Accept? || op.Reject? || op.Cancel? || op.Timeout? ==>
                  && (done <==> op.id in calls && !calls[op.id].accepted
                                && calls[op.id].caller == op.caller && calls[op.id].callee == op.callee)
                  && (done ==> next == if op.Accept? then calls[op.id := CallRecord(op.caller, op.callee, true)]
                                       else calls - {op.id}))
            && (op.Hangup? || op.Signal? ==>
                  var joined := op.id in calls && calls[op.id].accepted
                                && ((calls[op.id].caller == op.user && calls[op.id].callee == op.peer)
                                    || (calls[op.id].caller == op.peer && calls[op.id].callee == op.user));
                  && (op.Hangup? ==> (done <==> joined) && (done ==> next == calls - {op.id}))
                  && (op.Signal? ==>
                        && (done <==> && joined
                                      && (op.kind == Offer ==> calls[op.id].caller == op.user)
                                      && (op.kind == Answer ==> calls[op.id].callee == op.user))
                        && next == calls))
            && (op.Remove? ==>
                  && done
                  && (forall k :: k in next <==> k in calls && calls[k].caller != op.user && calls[k].callee != op.user)
                  && forall k | k in next :: next[k] == calls[k])
  {
    if op.Start? {
      if k :| k in calls && (calls[k].Has(op.caller) || calls[k].Has(op.callee)) {}
    } else if op.Remove? {
      if Busy(calls, op.user) {
        assert calls[CallOf(calls, op.user)].Has(op.user);
        assert forall k | k in calls && (calls[k].caller == op.user || calls[k].callee == op.user) :: calls[k].Has(op.user);
      } else {
        assert forall k | k in calls :: !calls[k].Has(op.user);
      }
    }
  }

  /** Every operation keeps the matching, except a user calling himself, which the source's only
      caller of startCall rules out (server/ChatServer.cc:635). */
  lemma MatchingPreserved(calls: CallMap, op: CallOp)
    requires Matching(calls)
    ensures Matching(After(calls, op)) <==>
            !(op.Start? && op.caller == op.callee && Judge(calls, op) == Done)
  {
    var next := After(calls, op);
    if Judge(calls, op) == Done && op.Start? {
      assert next[op.id] == CallRecord(op.caller, op.callee, false);
      if op.caller != op.callee {
        assert forall k, u | k in calls && calls[k].Has(u) :: u != op.caller && u != op.callee;
      }
    } else if Judge(calls, op) == Done && op.Accept? {
      assert forall k | k in next :: k in calls && forall u :: next[k].Has(u) == calls[k].Has(u);
    }
  }

  // ---------------------------------------------------------------------------------------------
  // The two maps of the source
  // ---------------------------------------------------------------------------------------------

  /** users_ says exactly what calls_ says: one entry for each end of each call, nothing else. */
  ghost predicate Mirrors(users: map<string, UserCall>, calls: CallMap) {
    && (forall k, u | k in calls && calls[k].Has(u) ::
          u in users && users[u] == UserCall(calls[k].StateOf(u), k, calls[k].PeerOf(u)))
    && (forall u | u in users :: users[u].callId in calls && calls[users[u].callId].Has(u))
  }

  lemma ListedIffBusy(users: map<string, UserCall>, calls: CallMap, u: string)
    requires Mirrors(users, calls)
    ensures u in users <==> Busy(calls, u)
  {
    if u in users { assert calls[users[u].callId].Has(u); }
  }

  lemma MirrorsStarted(users: map<string, UserCall>, calls: CallMap, caller: string, callee: string, id: string)
    requires Mirrors(users, calls) && caller !in users && callee !in users && id !in calls
    ensures Mirrors(users[caller := UserCall(CallCalling, id, callee)][callee := UserCall(CallRinging, id, caller)],
                    calls[id := CallRecord(caller, callee, false)])
            <==> caller != callee
  {
    var users' := users[caller := UserCall(CallCalling, id, callee)][callee := UserCall(CallRinging, id, caller)];
    var calls' := calls[id := CallRecord(caller, callee, false)];
    if caller == callee {
      assert calls'[id].Has(caller) && users'[caller].state != calls'[id].StateOf(caller);
    } else {
      forall k, u | k in calls' && calls'[k].Has(u)
        ensures u in users' && users'[u] == UserCall(calls'[k].StateOf(u), k, calls'[k].PeerOf(u))
      {
        if k != id { assert calls[k].Has(u) && u in users; }
      }
      forall u | u in users' ensures users'[u].callId in calls' && calls'[users'[u].callId].Has(u) {
        if u != caller && u != callee { assert calls[users[u].callId].Has(u); }
      }
    }
  }

  lemma MirrorsAccepted(users: map<string, UserCall>, calls: CallMap, id: string)
    requires Mirrors(users, calls) && Matching(calls) && id in calls && !calls[id].accepted
    ensures var call := calls[id];
            && call.caller in users && call.callee in users
            && Mirrors(users[call.callee := users[call.callee].(state := CallInCall)]
                            [call.caller := users[call.caller].(state := CallInCall)],
                       calls[id := call.(accepted := true)])
  {
    hide Matching;
    var call := calls[id];
    CallsApart(calls, id);
    assert call.Has(call.caller) && call.Has(call.callee);
    var calls' := calls[id := call.(accepted := true)];
    var users' := users[call.callee := users[call.callee].(state := CallInCall)]
                       [call.caller := users[call.caller].(state := CallInCall)];
    forall k, u | k in calls' && calls'[k].Has(u)
      ensures u in users' && users'[u] == UserCall(calls'[k].StateOf(u), k, calls'[k].PeerOf(u))
    {
      assert calls[k].Has(u);
    }
    forall u | u in users' ensures users'[u].callId in calls' && calls'[users'[u].callId].Has(u) {
      assert u in users && calls[users[u].callId].Has(u);
    }
  }

  lemma CallsApart(calls: CallMap, id: string)
    requires Matching(calls) && id in calls
    ensures forall k, u | k in calls && calls[k].Has(u) && calls[id].Has(u) :: k == id
  {
  }

  lemma MirrorsErased(users: map<string, UserCall>, calls: CallMap, id: string)
    requires Mirrors(users, calls) && Matching(calls) && id in calls
    ensures Mirrors(users - {calls[id].caller} - {calls[id].callee}, calls - {id})
  {
    hide Matching;
    var call := calls[id];
    var users' := users - {call.caller} - {call.callee};
    CallsApart(calls, id);
    forall k, u | k in calls - {id} && calls[k].Has(u)
      ensures u in users' && users'[u] == UserCall(calls[k].StateOf(u), k, calls[k].PeerOf(u))
    {
      assert u in users && !call.Has(u);
    }
    forall u | u in users' ensures users'[u].callId in calls - {id} && calls[users'[u].callId].Has(u) {
      assert calls[users[u].callId].Has(u) && !call.Has(u);
    }
  }

  class CallManager {
    var users: map<string, UserCall>
    var calls: map<string, CallRecord>

    ghost predicate Valid() reads this {
      Mirrors(users, calls) && Matching(calls)
    }

    constructor ()
      ensures Valid() && calls == map[]
    {
      users, calls := map[], map[];
    }

    method StartCall(caller: string, callee: string, callId: string) returns (verdict: Verdict)
      requires Valid()
      modifies this
      ensures verdict == Judge(old(calls), Start(caller, callee, callId))
      ensures calls == After(old(calls), Start(caller, callee, callId))
      ensures Valid() <==> !(verdict == Done && caller == callee)
    {
      ListedIffBusy(users, calls, caller);
      ListedIffBusy(users, calls, callee);
      MatchingPreserved(calls, Start(caller, callee, callId));
      if caller in users { return Refused(CallerBusy); }
      if callee in users { return Refused(TargetBusy); }
      if callId in calls { return Refused(DuplicateCallId); }
      MirrorsStarted(users, calls, caller, callee, callId);
      calls := calls[callId := CallRecord(caller, callee, false)];
      users := users[caller := UserCall(CallCalling, callId, callee)];
      users := users[callee := UserCall(CallRinging, callId, caller)];
      verdict := Done;
    }

    method AcceptCall(callee: string, caller: string, callId: string) returns (verdict: Verdict)
      requires Valid()
      modifies this
      ensures Valid()
      ensures verdict == Judge(old(calls), Accept(callee, caller, callId))
      ensures calls == After(old(calls), Accept(callee, caller, callId))
    {
      MatchingPreserved(calls, Accept(callee, caller, callId));
      if callee !in users || caller !in users || callId !in calls
        || users[callee].state != CallRinging
        || users[caller].state != CallCalling
        || users[callee].callId != callId
        || users[caller].callId != callId
        || users[callee].peer != caller
        || users[caller].peer != callee
        || calls[callId].caller != caller
        || calls[callId].callee != callee
        || calls[callId].accepted
      {
        return Refused(InvalidPendingCall);
      }
      MirrorsAccepted(users, calls, callId);
      users := users[callee := users[callee].(state := CallInCall)];
      users := users[caller := users[caller].(state := CallInCall)];
      calls := calls[callId := calls[callId].(accepted := true)];
      verdict := Done;
    }

    method RejectCall(callee: string, caller: string, callId: string) returns (verdict: Verdict)
      requires Valid()
      modifies this
      ensures Valid()
      ensures verdict == Judge(old(calls), Reject(callee, caller, callId))
      ensures calls == After(old(calls), Reject(callee, caller, callId))
    {
      verdict := FinishPendingCall(callee, caller, callId, CallRinging, false);
    }

    method CancelCall(caller: string, callee: string, callId: string) returns (verdict: Verdict)
      requires Valid()
      modifies this
      ensures Valid()
      ensures verdict == Judge(old(calls), Cancel(caller, callee, callId))
      ensures calls == After(old(calls), Cancel(caller, callee, callId))
    {
      verdict := FinishPendingCall(caller, callee, callId, CallCalling, true);
    }

    method TimeoutCall(caller: string, callee: string, callId: string) returns (verdict: Verdict)
      requires Valid()
      modifies this
      ensures Valid()
      ensures verdict == Judge(old(calls), Timeout(caller, callee, callId))
      ensures calls == After(old(calls), Timeout(caller, callee, callId))
    {
      verdict := FinishPendingCall(caller, callee, callId, CallCalling, true);
    }

    method HangupCall(username: string, peer: string, callId: string) returns (verdict: Verdict)
      requires Valid()
      modifies this
      ensures Valid()
      ensures verdict == Judge(old(calls), Hangup(username, peer, callId))
      ensures calls == After(old(calls), Hangup(username, peer, callId))
    {
      if username !in users || peer !in users || callId !in calls
        || users[username].state != CallInCall
        || users[peer].state != CallInCall
        || users[username].callId != callId
        || users[peer].callId != callId
        || users[username].peer != peer
        || users[peer].peer != username
        || !calls[callId].accepted
      {
        return Refused(InvalidActiveCall);
      }
      EraseCallLocked(callId);
      verdict := Done;
    }

    method ValidateSignaling(username: string, peer: string, callId: string, kind: SignalKind)
      returns (verdict: Verdict)
      requires Valid()
      ensures verdict == Judge(calls, Signal(username, peer, callId, kind))
    {
      if username !in users || peer !in users || callId !in calls
        || users[username].state != CallInCall
        || users[peer].state != CallInCall
        || users[username].callId != callId
        || users[peer].callId != callId
        || users[username].peer != peer
        || users[peer].peer != username
        || !calls[callId].accepted
      {
        return Refused(NotInSameActiveCall);
      }
      if kind == Offer && calls[callId].caller != username {
        return Refused(OnlyCallerCanOffer);
      }
      if kind == Answer && calls[callId].callee != username {
        return Refused(OnlyCalleeCanAnswer);
      }
      return Done;
    }

    method RemoveUser(username: string) returns (event: Option<CallDisconnectEvent>)
      requires Valid()
      modifies this
      ensures Valid()
      ensures event.Some? <==> Busy(old(calls), username)
      ensures event.Some? ==>
                var k := CallOf(old(calls), username);
                event.value == CallDisconnectEvent(k, old(calls)[k].PeerOf(username), old(calls)[k].StateOf(username))
      ensures calls == After(old(calls), Remove(username))
    {
      ListedIffBusy(users, calls, username);
      if username !in users { return None; }
      var entry := users[username];
      event := Some(CallDisconnectEvent(entry.callId, entry.peer, entry.state));
      EraseCallLocked(entry.callId);
    }

    method StateForUser(username: string) returns (state: CallUserState)
      requires Valid()
      ensures state == if Busy(calls, username) then calls[CallOf(calls, username)].StateOf(username) else CallIdle
    {
      ListedIffBusy(users, calls, username);
      state := if username !in users then CallIdle else users[username].state;
    }

    method FinishPendingCall(username: string, peer: string, callId: string,
                             expectedState: CallUserState, expectCaller: bool)
      returns (verdict: Verdict)
      requires Valid()
      requires expectedState == if expectCaller then CallCalling else CallRinging
      modifies this
      ensures Valid()
      ensures var pending := if expectCaller then PendingIs(old(calls), callId, username, peer)
                                             else PendingIs(old(calls), callId, peer, username);
              && verdict == (if pending then Done else Refused(InvalidPendingCall))
              && calls == if pending then old(calls) - {callId} else old(calls)
    {
      if username !in users || peer !in users || callId !in calls
        || users[username].state != expectedState
        || users[username].callId != callId
        || users[peer].callId != callId
        || users[username].peer != peer
        || users[peer].peer != username
        || calls[callId].accepted
        || (expectCaller && calls[callId].caller != username)
        || (!expectCaller && calls[callId].callee != username)
      {
        return Refused(InvalidPendingCall);
      }
      EraseCallLocked(callId);
      verdict := Done;
    }

    method EraseCallLocked(callId: string)
      requires Valid()
      modifies this
      ensures Valid()
      ensures calls == old(calls) - {callId}
    {
      if callId !in calls { return; }
      var call := calls[callId];
      MirrorsErased(users, calls, callId);
      users := users - {call.caller};
      users := users - {call.callee};
      calls := calls - {callId};
    }
  }
}
