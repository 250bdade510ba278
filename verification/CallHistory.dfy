/** What can happen to one call id over any run of server/CallManager.cc: the life of a call, told
    by the successful operations on it, in the order the manager's mutex let them through. */
module CallHistory {
  import opened Calls

  datatype Event =
    | Started(caller: string, callee: string)
    | Accepted(callee: string)
    | Signalled(sender: string, kind: SignalKind)
    | Rejected(who: string)
    | Cancelled(who: string)
    | TimedOut(who: string)
    | HungUp(who: string)
    | Removed(user: string)

  /** The event `op` leaves in the history of call `id`, if it succeeds and concerns that call. */
  ghost function EventOf(calls: CallMap, op: CallOp, id: string): seq<Event>
    requires Matching(calls)
  {
    if Judge(calls, op) != Done then [] else
    match op
    case Start(caller, callee, k) => if k == id then [Started(caller, callee)] else []
    case Accept(callee, _, k) => if k == id then [Accepted(callee)] else []
    case Reject(u, _, k) => if k == id then [Rejected(u)] else []
    case Cancel(u, _, k) => if k == id then [Cancelled(u)] else []
    case Timeout(u, _, k) => if k == id then [TimedOut(u)] else []
    case Hangup(u, _, k) => if k == id then [HungUp(u)] else []
    case Signal(u, _, k, kind) => if k == id then [Signalled(u, kind)] else []
    case Remove(u) => if Busy(calls, u) && CallOf(calls, u) == id then [Removed(u)] else []
  }

  // Every operation the server issues has two different users (server/ChatServer.cc:635).
  ghost predicate NoSelfCalls(ops: seq<CallOp>) {
    forall op | op in ops && op.Start? :: op.caller != op.callee
  }

  ghost function Run(ops: seq<CallOp>): (calls: CallMap)
    requires NoSelfCalls(ops)
    ensures Matching(calls)
  {
    if ops == [] then map[]
    else
      var before := Run(ops[..|ops| - 1]);
      var op := ops[|ops| - 1];
      MatchingPreserved(before, op);
      After(before, op)
  }

  ghost function History(ops: seq<CallOp>, id: string): seq<Event>
    requires NoSelfCalls(ops)
  {
    if ops == [] then []
    else
      History(ops[..|ops| - 1], id) + EventOf(Run(ops[..|ops| - 1]), ops[|ops| - 1], id)
  }

  // ---------------------------------------------------------------------------------------------
  // The grammar of one call's life
  // ---------------------------------------------------------------------------------------------

  ghost predicate Pending(t: seq<Event>, a: string, b: string) {
    t == [Started(a, b)]
  }

  /** Started by `a`, accepted by `b`, then signals between the two: only `a` offers, only `b` answers. */
  ghost predicate Active(t: seq<Event>, a: string, b: string) {
    && |t| >= 2 && t[0] == Started(a, b) && t[1] == Accepted(b)
    && forall i | 2 <= i < |t| ::
         && t[i].Signalled? && (t[i].sender == a || t[i].sender == b)
         && (t[i].kind == Offer ==> t[i].sender == a)
         && (t[i].kind == Answer ==> t[i].sender == b)
  }

  ghost predicate EndsPending(e: Event, a: string, b: string) {
    || e == Rejected(b) || e == Cancelled(a) || e == TimedOut(a)
    || e == Removed(a) || e == Removed(b)
  }

  ghost predicate EndsActive(e: Event, a: string, b: string) {
    e == HungUp(a) || e == HungUp(b) || e == Removed(a) || e == Removed(b)
  }

  ghost predicate FinishedBetween(t: seq<Event>, a: string, b: string) {
    && a != b && |t| >= 2
    && var body, end := t[..|t| - 1], t[|t| - 1];
       || (Pending(body, a, b) && EndsPending(end, a, b))
       || (Active(body, a, b) && EndsActive(end, a, b))
  }

  ghost predicate Finished(t: seq<Event>) {
    exists a, b :: FinishedBetween(t, a, b)
  }

  ghost function Flatten<T>(ts: seq<seq<T>>): seq<T> {
    if ts == [] then [] else Flatten(ts[..|ts| - 1]) + ts[|ts| - 1]
  }

  // `current` is the unfinished life of the call now recorded under `id`, if there is one.
  ghost predicate Alive(current: seq<Event>, calls: CallMap, id: string) {
    if id !in calls then current == []
    else if calls[id].accepted then Active(current, calls[id].caller, calls[id].callee)
    else Pending(current, calls[id].caller, calls[id].callee)
  }

  /** One successful operation on a call carries its life one event further, or ends it. */
  lemma LifeGoesOn(calls: CallMap, op: CallOp, id: string, current: seq<Event>)
    requires Matching(calls) && Alive(current, calls, id)
    requires op.Start? ==> op.caller != op.callee
    requires EventOf(calls, op, id) != []
    ensures var next := current + EventOf(calls, op, id);
            if id in After(calls, op) then Alive(next, After(calls, op), id)
            else id in calls && FinishedBetween(next, calls[id].caller, calls[id].callee)
  {
    var event := EventOf(calls, op, id)[0];
    var next := current + [event];
    assert EventOf(calls, op, id) == [event];
    assert next[..|next| - 1] == current && next[|next| - 1] == event;
    if op.Signal? {
      assert Active(next, calls[id].caller, calls[id].callee);
    }
  }

  lemma FlattenSnoc<T>(ts: seq<seq<T>>, t: seq<T>)
    ensures Flatten(ts + [t]) == Flatten(ts) + t
  {
    assert (ts + [t])[..|ts|] == ts;
  }

  ghost predicate Splits(past: seq<seq<Event>>, current: seq<Event>, history: seq<Event>) {
    history == Flatten(past) + current && forall i | 0 <= i < |past| :: Finished(past[i])
  }

  lemma SplitGrows(past: seq<seq<Event>>, current: seq<Event>, history: seq<Event>, event: seq<Event>)
    requires Splits(past, current, history)
    ensures Splits(past, current + event, history + event)
    ensures Finished(current + event) ==> Splits(past + [current + event], [], history + event)
  {
    FlattenSnoc(past, current + event);
    assert Flatten(past) + current + event == Flatten(past) + (current + event);
    assert Flatten(past + [current + event]) + [] == Flatten(past + [current + event]);
  }

  /** Over any run, the history of a call id is a sequence of finished lives, each with two distinct
      users, followed by the unfinished life of the call the table holds now. */
  lemma {:induction false} HistoryIsRepeatedLives(ops: seq<CallOp>, id: string)
    returns (past: seq<seq<Event>>, current: seq<Event>)
    requires NoSelfCalls(ops)
    ensures History(ops, id) == Flatten(past) + current
    ensures forall i | 0 <= i < |past| :: Finished(past[i])
    ensures Alive(current, Run(ops), id)
  {
    if ops == [] {
      return [], [];
    }
    var init, op := ops[..|ops| - 1], ops[|ops| - 1];
    past, current := HistoryIsRepeatedLives(init, id);
    var event := EventOf(Run(init), op, id);
    SplitGrows(past, current, History(init, id), event);
    if event == [] {
      OtherCallsUntouched(Run(init), op, id);
      assert current + [] == current;
    } else {
      LifeGoesOn(Run(init), op, id, current);
      past, current := if id in Run(ops) then past else past + [current + event],
                       if id in Run(ops) then current + event else [];
    }
  }

  lemma OtherCallsUntouched(calls: CallMap, op: CallOp, id: string)
    requires Matching(calls) && EventOf(calls, op, id) == []
    ensures id in After(calls, op) <==> id in calls
    ensures id in calls ==> After(calls, op)[id] == calls[id]
  {
  }

  /** An offer that passed validation came from the caller of the call it belongs to, an answer from
      its callee, whatever happened to that id before or after. */
  lemma {:induction false} SignalsComeFromTheirSide(ops: seq<CallOp>, u: string, peer: string, id: string, kind: SignalKind)
    requires NoSelfCalls(ops) && Judge(Run(ops), Signal(u, peer, id, kind)) == Done
    ensures exists past: seq<seq<Event>>, current: seq<Event>, a, b ::
              && History(ops, id) == Flatten(past) + current
              && (forall i | 0 <= i < |past| :: Finished(past[i]))
              && Active(current, a, b)
              && ((u == a && peer == b && kind != Answer) || (u == b && peer == a && kind != Offer))
  {
    var past, current := HistoryIsRepeatedLives(ops, id);
    var call := Run(ops)[id];
    assert Active(current, call.caller, call.callee);
  }

  // Whose turn it is in a ringing call from a to b: what u may do to v.
  predicate TurnWhenRinging(calls: CallMap, id: string, a: string, b: string, u: string, v: string) {
    && (Judge(calls, Accept(u, v, id)) == Done <==> u == b && v == a)
    && (Judge(calls, Reject(u, v, id)) == Done <==> u == b && v == a)
    && (Judge(calls, Cancel(u, v, id)) == Done <==> u == a && v == b)
    && (Judge(calls, Timeout(u, v, id)) == Done <==> u == a && v == b)
    && Judge(calls, Hangup(u, v, id)) != Done
    && Judge(calls, Signal(u, v, id, Offer)) != Done && Judge(calls, Signal(u, v, id, Answer)) != Done
    && Judge(calls, Signal(u, v, id, IceCandidate)) != Done
  }

  // And in a call from a that b has accepted.
  predicate TurnWhenTalking(calls: CallMap, id: string, a: string, b: string, u: string, v: string) {
    && (Judge(calls, Hangup(u, v, id)) == Done <==> (u == a && v == b) || (u == b && v == a))
    && (Judge(calls, Signal(u, v, id, IceCandidate)) == Done <==> (u == a && v == b) || (u == b && v == a))
    && (Judge(calls, Signal(u, v, id, Offer)) == Done <==> u == a && v == b)
    && (Judge(calls, Signal(u, v, id, Answer)) == Done <==> u == b && v == a)
    && Judge(calls, Accept(u, v, id)) != Done && Judge(calls, Cancel(u, v, id)) != Done
    && Judge(calls, Reject(u, v, id)) != Done && Judge(calls, Timeout(u, v, id)) != Done
  }

  lemma RingingDecides(calls: CallMap, id: string, a: string, b: string, u: string, v: string)
    requires id in calls && calls[id] == CallRecord(a, b, false)
    ensures TurnWhenRinging(calls, id, a, b, u, v)
  {
  }

  lemma TalkingDecides(calls: CallMap, id: string, a: string, b: string, u: string, v: string)
    requires id in calls && calls[id] == CallRecord(a, b, true) && a != b
    ensures TurnWhenTalking(calls, id, a, b, u, v)
  {
  }

  /** The other way round: whoever's turn it is by the unfinished life of a call can always take it, and nobody
      else can. */
  lemma LifeDecides(ops: seq<CallOp>, id: string, a: string, b: string) returns (past: seq<seq<Event>>, current: seq<Event>)
    requires NoSelfCalls(ops)
    ensures History(ops, id) == Flatten(past) + current && forall i | 0 <= i < |past| :: Finished(past[i])
    ensures Pending(current, a, b) ==> forall u, v :: TurnWhenRinging(Run(ops), id, a, b, u, v)
    ensures Active(current, a, b) ==> forall u, v :: TurnWhenTalking(Run(ops), id, a, b, u, v)
  {
    hide Run, History, Flatten, Finished, TurnWhenRinging, TurnWhenTalking;
    past, current := HistoryIsRepeatedLives(ops, id);
    var calls := Run(ops);
    if id in calls {
      var call := calls[id];
      assert call.caller != call.callee;
      assert current[0] == Started(call.caller, call.callee);
      if call.accepted {
        forall u, v ensures TurnWhenTalking(calls, id, call.caller, call.callee, u, v) {
          TalkingDecides(calls, id, call.caller, call.callee, u, v);
        }
      } else {
        forall u, v ensures TurnWhenRinging(calls, id, call.caller, call.callee, u, v) {
          RingingDecides(calls, id, call.caller, call.callee, u, v);
        }
      }
    }
  }
}
