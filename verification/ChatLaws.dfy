/** The chat server as its clients see it, from line to line: what a request, given by its fields, changes
    and who is told what, given by the fields of the lines sent, when it runs alone.  Nothing here is said
    through the functions of the other modules but the reading of requests and the rendering of messages. */
module ChatLaws {
  import opened Json
  import opened JsonSignaling
  import opened Names
  import opened Calls
  import opened ChatProtocol
  import opened SignalFraming
  import opened Requests
  import opened Wire
  import F = Framing
  import R = Rooms
  import Users

  // A field that is not there reads as empty.
  predicate Says(fields: JsonObject, key: string, value: string) {
    if key in fields then fields[key] == value else value == ""
  }

  // What the request of a session logged in as `user`, or not at all, amounts to.
  ghost function Reply(conn: Users.Conn, g: Shared, user: string, fields: JsonObject): Effect
    requires Matching(g.calls) && Dispatch(fields).Handle?
  {
    var request := Dispatch(fields).request;
    RequestIsServed(conn, g, user, request);
    var begun := Begin(conn, Local(user, Idle), request);
    var o := Finish(conn, g, begun.0);
    Effect(o.shared, o.local.username, o.local.stage.Closed?, begun.1 + o.sent)
  }

  lemma ReplyIsServed(conn: Users.Conn, g: Shared, user: string, fields: JsonObject)
    requires Matching(g.calls) && Dispatch(fields).Handle?
    ensures Reply(conn, g, user, fields) == Served(conn, g, user, Dispatch(fields).request)
  {
    hide Finish, Begin, Dispatch, Matching, Served;
    RequestIsServed(conn, g, user, Dispatch(fields).request);
  }

  // The delivery is a line to this connection which every client takes, in whatever pieces, as this object.
  ghost predicate Gets(d: Delivery, conn: Users.Conn, fields: JsonObject) {
    d.conn == conn && HandledAs(Render(d.message), fields, F.Unlimited)
  }

  ghost predicate OneLine(e: Effect, conn: Users.Conn, fields: JsonObject) {
    |e.sent| == 1 && Gets(e.sent[0], conn, fields)
  }

  lemma MessageGets(conn: Users.Conn, m: Message, fields: JsonObject)
    requires !m.Signaling? && FieldsOf(m) == fields
    ensures Gets(Delivery(conn, m), conn, fields)
  {
    MessageIsHandled(m, F.Unlimited);
    hide HandledAs, FieldsOf, Render, IsOneLine;
  }

  // ---------------------------------------------------------------------------------------------
  // Calls
  // ---------------------------------------------------------------------------------------------

  function CallAnswer(kind: string, user: string, id: string, reason: string): JsonObject {
    map["type" := kind, "from" := "server", "to" := user, "call_id" := id, "reason" := reason]
  }

  /** The sender gets a complaint with this reason, and nothing has changed. */
  ghost predicate Refuses(e: Effect, conn: Users.Conn, g: Shared, user: string, kind: string, id: string, reason: string) {
    e.shared == g && e.username == user && !e.closed && OneLine(e, conn, CallAnswer(kind, user, id, reason))
  }

  /** The calls have changed to these, and the only line goes to this connection. */
  ghost predicate Leads(e: Effect, g: Shared, user: string, calls: CallMap, conn: Users.Conn, fields: JsonObject) {
    e.shared == g.(calls := calls) && e.username == user && !e.closed && OneLine(e, conn, fields)
  }

  predicate InCall(calls: CallMap, u: string) { exists k | k in calls :: calls[k].caller == u || calls[k].callee == u }

  // What every call request is checked for first.
  predicate WellAddressed(user: string, target: string, id: string) {
    IsValidName(target) && IsValidCallId(id) && target != user
  }

  function AddressFault(user: string, target: string, id: string): string {
    if !IsValidName(target) then "invalid_target"
    else if !IsValidCallId(id) then "invalid_call_id"
    else "cannot_call_self"
  }

  lemma CallRequested(fields: JsonObject, kind: CallType, text: string, target: string, id: string, media: string,
                      reason: string, payloadName: string, payload: string)
    requires text == KindText(kind) && payloadName == PayloadName(kind)
    requires Says(fields, "type", text) && Says(fields, "to", target) && Says(fields, "call_id", id)
    requires Says(fields, "media", media) && Says(fields, "reason", reason) && Says(fields, payloadName, payload)
    ensures Dispatch(fields) == Handle(Call(kind, target, id, media, reason, payload))
  {
    hide KindText, Dispatch;
    KindIsDispatched(fields, kind);
  }

  lemma AddressLaw(conn: Users.Conn, g: Shared, user: string, fields: JsonObject, target: string, id: string)
    requires Matching(g.calls) && user != ""
    requires Dispatch(fields).Handle? && Dispatch(fields).request.Call?
    requires Dispatch(fields).request.target == target && Dispatch(fields).request.id == id
    ensures !WellAddressed(user, target, id) ==>
              Refuses(Reply(conn, g, user, fields), conn, g, user, "call_error", id, AddressFault(user, target, id))
    ensures WellAddressed(user, target, id) ==>
              Reply(conn, g, user, fields) == AddressedCall(conn, g, user, Dispatch(fields).request)
  {
    hide Dispatch, Matching, IsValidName, IsValidCallId, Invited, Updated, Signaled, FieldsOf, Gets, Reply;
    ReplyIsServed(conn, g, user, fields);
    if !WellAddressed(user, target, id) {
      var fault := if !IsValidName(target) then InvalidTarget else if !IsValidCallId(id) then InvalidCallId else CannotCallSelf;
      CallErrorGets(conn, user, id, fault, AddressFault(user, target, id));
    }
  }

  // What Called makes of a request with a good address.
  function AddressedCall(conn: Users.Conn, g: Shared, user: string, request: Request): Effect
    requires Matching(g.calls) && request.Call?
  {
    var call := Ref(user, request.target, request.id);
    if request.kind == CallInvite then
      if request.media != "video" then Unchanged(conn, g, user, CallError(user, call.id, UnsupportedMedia))
      else Invited(conn, g, call)
    else if IsSignal(request.kind) then
      if !PayloadAccepted(request.payload) then Unchanged(conn, g, user, CallError(user, call.id, InvalidPayload))
      else Signaled(conn, g, request.kind, call, request.payload)
    else Updated(conn, g, request.kind, call, request.reason)
  }

  lemma CallErrorGets(conn: Users.Conn, user: string, id: string, fault: Fault, reason: string)
    requires FaultText(fault) == reason
    ensures Gets(Delivery(conn, CallError(user, id, fault)), conn, CallAnswer("call_error", user, id, reason))
  {
    hide FaultText;
    MessageGets(conn, CallError(user, id, fault), CallAnswer("call_error", user, id, reason));
  }

  lemma CallBusyGets(conn: Users.Conn, user: string, id: string, fault: Fault, reason: string)
    requires FaultText(fault) == reason
    ensures Gets(Delivery(conn, CallBusy(user, id, fault)), conn, CallAnswer("call_busy", user, id, reason))
  {
    hide FaultText;
    MessageGets(conn, CallBusy(user, id, fault), CallAnswer("call_busy", user, id, reason));
  }

  /** call_invite: refused with the first of eight complaints that applies; else recorded as ringing, and the
      callee gets the invitation. */
  lemma InvitationLaw(conn: Users.Conn, g: Shared, user: string, fields: JsonObject, target: string, id: string, media: string)
    requires Matching(g.calls) && user != ""
    requires Says(fields, "type", "call_invite") && Says(fields, "to", target) && Says(fields, "call_id", id) && Says(fields, "media", media)
    ensures Dispatch(fields).Handle?
    ensures var e := Reply(conn, g, user, fields);
            if !WellAddressed(user, target, id) then Refuses(e, conn, g, user, "call_error", id, AddressFault(user, target, id))
            else if media != "video" then Refuses(e, conn, g, user, "call_error", id, "unsupported_media")
            else if target !in g.online then Refuses(e, conn, g, user, "call_error", id, "target_offline")
            else if InCall(g.calls, user) then Refuses(e, conn, g, user, "call_busy", id, "caller_busy")
            else if InCall(g.calls, target) then Refuses(e, conn, g, user, "call_busy", id, "target_busy")
            else if id in g.calls then Refuses(e, conn, g, user, "call_error", id, "duplicate_call_id")
            else Leads(e, g, user, g.calls[id := CallRecord(user, target, false)], g.online[target],
                       map["type" := "call_invite", "from" := user, "to" := target, "call_id" := id, "media" := "video"])
  {
    hide Dispatch, Says, Matching, Gets, Reply, FieldsOf, AddressFault, WellAddressed, Refuses, Leads, KindText, PayloadName, Invited;
    InviteRequested(fields, target, id, media);
    AddressLaw(conn, g, user, fields, target, id);
    InvitedLaw(conn, g, user, target, id);
    UnsupportedLaw(conn, g, user, id);
  }

  lemma InviteRequested(fields: JsonObject, target: string, id: string, media: string)
    requires Says(fields, "type", "call_invite") && Says(fields, "to", target) && Says(fields, "call_id", id) && Says(fields, "media", media)
    ensures exists reason, payload :: Dispatch(fields) == Handle(Call(CallInvite, target, id, media, reason, payload))
  {
    var reason := if "reason" in fields then fields["reason"] else "";
    var payload := if "sdp" in fields then fields["sdp"] else "";
    CallRequested(fields, CallInvite, "call_invite", target, id, media, reason, "sdp", payload);
    hide Dispatch, Says;
  }

  lemma UnsupportedLaw(conn: Users.Conn, g: Shared, user: string, id: string)
    ensures Refuses(Unchanged(conn, g, user, CallError(user, id, UnsupportedMedia)), conn, g, user, "call_error", id, "unsupported_media")
    ensures Refuses(Unchanged(conn, g, user, CallError(user, id, InvalidPayload)), conn, g, user, "call_error", id, "invalid_signaling_payload")
  {
    hide Gets;
    CallErrorGets(conn, user, id, UnsupportedMedia, "unsupported_media");
    CallErrorGets(conn, user, id, InvalidPayload, "invalid_signaling_payload");
  }

  lemma InvitedLaw(conn: Users.Conn, g: Shared, user: string, target: string, id: string)
    ensures var e := Invited(conn, g, Ref(user, target, id));
            if target !in g.online then Refuses(e, conn, g, user, "call_error", id, "target_offline")
            else if InCall(g.calls, user) then Refuses(e, conn, g, user, "call_busy", id, "caller_busy")
            else if InCall(g.calls, target) then Refuses(e, conn, g, user, "call_busy", id, "target_busy")
            else if id in g.calls then Refuses(e, conn, g, user, "call_error", id, "duplicate_call_id")
            else Leads(e, g, user, g.calls[id := CallRecord(user, target, false)], g.online[target],
                       map["type" := "call_invite", "from" := user, "to" := target, "call_id" := id, "media" := "video"])
  {
    hide Gets, Busy, InCall;
    BusyIsInCall(g.calls, user);
    BusyIsInCall(g.calls, target);
    CallErrorGets(conn, user, id, TargetOffline, "target_offline");
    CallErrorGets(conn, user, id, Rule(DuplicateCallId), "duplicate_call_id");
    CallBusyGets(conn, user, id, Rule(CallerBusy), "caller_busy");
    CallBusyGets(conn, user, id, Rule(TargetBusy), "target_busy");
    if target in g.online {
      InvitationGets(g.online[target], user, target, id);
    }
  }

  lemma BusyIsInCall(calls: CallMap, u: string)
    ensures Busy(calls, u) <==> InCall(calls, u)
  {
    if k :| k in calls && (calls[k].caller == u || calls[k].callee == u) { assert calls[k].Has(u); }
  }

  lemma InvitationGets(conn: Users.Conn, user: string, target: string, id: string)
    ensures Gets(Delivery(conn, CallEvent(CallInvite, user, target, id, NoReason)), conn,
                 map["type" := "call_invite", "from" := user, "to" := target, "call_id" := id, "media" := "video"])
  {
    MessageGets(conn, CallEvent(CallInvite, user, target, id, NoReason),
                map["type" := "call_invite", "from" := user, "to" := target, "call_id" := id, "media" := "video"]);
  }

  predicate Ringing(calls: CallMap, id: string, caller: string, callee: string) {
    id in calls && calls[id] == CallRecord(caller, callee, false)
  }

  predicate Talking(calls: CallMap, id: string, a: string, b: string) {
    id in calls && calls[id].accepted
    && ((calls[id].caller == a && calls[id].callee == b) || (calls[id].caller == b && calls[id].callee == a))
  }

  // A change of the calls, of which the peer is told if he is online, and nobody if he is not.
  ghost predicate LeadsOrQuiet(e: Effect, g: Shared, user: string, calls: CallMap, target: string, fields: JsonObject) {
    if target in g.online then Leads(e, g, user, calls, g.online[target], fields)
    else e == Effect(g.(calls := calls), user, false, [])
  }

  function News(kind: string, user: string, target: string, id: string): JsonObject {
    map["type" := kind, "from" := user, "to" := target, "call_id" := id]
  }

  lemma EventGets(conn: Users.Conn, kind: CallType, text: string, user: string, target: string, id: string, reason: EventReason)
    requires text == KindText(kind) && kind != CallInvite
    ensures Gets(Delivery(conn, CallEvent(kind, user, target, id, reason)), conn,
                 if EventReasonText(reason) == "" then News(text, user, target, id)
                 else News(text, user, target, id)["reason" := EventReasonText(reason)])
  {
    hide KindText, EventReasonText;
    MessageGets(conn, CallEvent(kind, user, target, id, reason),
                if EventReasonText(reason) == "" then News(text, user, target, id)
                else News(text, user, target, id)["reason" := EventReasonText(reason)]);
  }

  lemma UpdateRequested(conn: Users.Conn, g: Shared, user: string, fields: JsonObject, kind: CallType, text: string,
                        target: string, id: string, reason: string)
    requires Matching(g.calls) && user != "" && kind != CallInvite && !IsSignal(kind) && text == KindText(kind)
    requires Says(fields, "type", text) && Says(fields, "to", target) && Says(fields, "call_id", id) && Says(fields, "reason", reason)
    ensures Dispatch(fields).Handle?
    ensures !WellAddressed(user, target, id) ==>
              Refuses(Reply(conn, g, user, fields), conn, g, user, "call_error", id, AddressFault(user, target, id))
    ensures WellAddressed(user, target, id) ==>
              Reply(conn, g, user, fields) == Updated(conn, g, kind, Ref(user, target, id), reason)
  {
    var media := if "media" in fields then fields["media"] else "";
    var payload := if "sdp" in fields then fields["sdp"] else "";
    CallRequested(fields, kind, text, target, id, media, reason, "sdp", payload);
    hide Dispatch, Says, Matching, Gets, Reply, FieldsOf, AddressFault, WellAddressed, Updated, Refuses;
    AddressLaw(conn, g, user, fields, target, id);
  }

  lemma Complained(conn: Users.Conn, g: Shared, user: string, id: string, fault: Fault, reason: string)
    requires FaultText(fault) == reason
    ensures Refuses(Unchanged(conn, g, user, CallError(user, id, fault)), conn, g, user, "call_error", id, reason)
  {
    hide Gets, FaultText, CallAnswer;
    CallErrorGets(conn, user, id, fault, reason);
  }

  lemma Announced(g: Shared, user: string, calls: CallMap, conn: Users.Conn, m: Message, fields: JsonObject)
    requires Gets(Delivery(conn, m), conn, fields)
    ensures Leads(Effect(g.(calls := calls), user, false, Told(conn, m)), g, user, calls, conn, fields)
  {
    hide Gets;
  }

  // When an update succeeds, and what it leaves.
  lemma UpdateJudged(calls: CallMap, kind: CallType, user: string, target: string, id: string)
    requires Matching(calls) && kind != CallInvite && !IsSignal(kind) && user != target
    ensures var op := OpOf(kind, Ref(user, target, id));
            var allowed := if kind == CallAccept || kind == CallReject then Ringing(calls, id, target, user)
                           else if kind == CallHangup then Talking(calls, id, user, target)
                           else Ringing(calls, id, user, target);
            && (Judge(calls, op) ==
                if allowed then Done else Refused(if kind == CallHangup then InvalidActiveCall else InvalidPendingCall))
            && (allowed ==> After(calls, op) ==
                            if kind == CallAccept then calls[id := CallRecord(target, user, true)] else calls - {id})
  {
    hide Matching, Busy;
  }

  // The message that tells of an update, and the fields it is taken as.
  lemma UpdatedLaw(conn: Users.Conn, g: Shared, kind: CallType, text: string, user: string, target: string, id: string,
                   reason: string, allowed: bool, fault: string, calls: CallMap)
    requires Matching(g.calls) && kind != CallInvite && !IsSignal(kind) && text == KindText(kind)
    requires Judge(g.calls, OpOf(kind, Ref(user, target, id))) ==
             if allowed then Done else Refused(if kind == CallHangup then InvalidActiveCall else InvalidPendingCall)
    requires fault == if kind == CallHangup then "invalid_active_call" else "invalid_pending_call"
    requires allowed ==> After(g.calls, OpOf(kind, Ref(user, target, id))) == calls
    ensures var e := Updated(conn, g, kind, Ref(user, target, id), reason);
            var why := EventReasonText(ReasonOf(kind, reason));
            var news := if why == "" then News(text, user, target, id) else News(text, user, target, id)["reason" := why];
            if !allowed then Refuses(e, conn, g, user, "call_error", id, fault)
            else if target in g.online then Leads(e, g, user, calls, g.online[target], news)
            else if kind == CallAccept then Leads(e, g, user, g.calls - {id}, conn, CallAnswer("call_error", user, id, "target_offline"))
            else e == Effect(g.(calls := calls), user, false, [])
  {
    hide Matching, Judge, After, OpOf, Leads, Refuses, Gets, News, EventReasonText, ReasonOf, KindText, CallAnswer;
    Complained(conn, g, user, id, Rule(if kind == CallHangup then InvalidActiveCall else InvalidPendingCall), fault);
    CallErrorGets(conn, user, id, TargetOffline, "target_offline");
    Announced(g, user, g.calls - {id}, conn, CallError(user, id, TargetOffline), CallAnswer("call_error", user, id, "target_offline"));
    if target in g.online {
      var why := EventReasonText(ReasonOf(kind, reason));
      var news := if why == "" then News(text, user, target, id) else News(text, user, target, id)["reason" := why];
      var peer := g.online[target];
      EventGets(peer, kind, text, user, target, id, ReasonOf(kind, reason));
      Announced(g, user, calls, peer, CallEvent(kind, user, target, id, ReasonOf(kind, reason)), news);
    }
  }

  lemma UpdateTexts(reason: string)
    ensures KindText(CallAccept) == "call_accept" && EventReasonText(ReasonOf(CallAccept, reason)) == ""
    ensures KindText(CallReject) == "call_reject"
    ensures EventReasonText(ReasonOf(CallReject, reason)) == (if reason == "" then "rejected" else reason) != ""
    ensures KindText(CallCancel) == "call_cancel" && EventReasonText(ReasonOf(CallCancel, reason)) == ""
    ensures KindText(CallTimeout) == "call_timeout" && EventReasonText(ReasonOf(CallTimeout, reason)) == "timeout" != ""
    ensures KindText(CallHangup) == "call_hangup" && EventReasonText(ReasonOf(CallHangup, reason)) == ""
    ensures !IsSignal(CallAccept) && !IsSignal(CallReject) && !IsSignal(CallCancel) && !IsSignal(CallTimeout) && !IsSignal(CallHangup)
  {
  }

  lemma AddressesOther(user: string, target: string, id: string)
    requires WellAddressed(user, target, id)
    ensures user != target
  {
  }

  /** call_accept: the callee of a ringing call, and nobody else, accepts it; if the caller is gone, the call
      is over. */
  lemma AcceptLaw(conn: Users.Conn, g: Shared, user: string, fields: JsonObject, target: string, id: string, reason: string)
    requires Matching(g.calls) && user != ""
    requires Says(fields, "type", "call_accept") && Says(fields, "to", target) && Says(fields, "call_id", id) && Says(fields, "reason", reason)
    ensures Dispatch(fields).Handle?
    ensures var e := Reply(conn, g, user, fields);
            if !WellAddressed(user, target, id) then Refuses(e, conn, g, user, "call_error", id, AddressFault(user, target, id))
            else if !Ringing(g.calls, id, target, user) then Refuses(e, conn, g, user, "call_error", id, "invalid_pending_call")
            else if target in g.online then
              Leads(e, g, user, g.calls[id := CallRecord(target, user, true)], g.online[target], News("call_accept", user, target, id))
            else Leads(e, g, user, g.calls - {id}, conn, CallAnswer("call_error", user, id, "target_offline"))
  {
    hide Leads, Refuses, Gets, News, Reply, Dispatch, Says, WellAddressed, Updated, Ringing, Talking, Judge, After, OpOf;
    hide Matching, KindText, EventReasonText, ReasonOf, AddressFault, CallAnswer, IsSignal;
    UpdateTexts(reason);
    UpdateRequested(conn, g, user, fields, CallAccept, "call_accept", target, id, reason);
    if WellAddressed(user, target, id) {
      AddressesOther(user, target, id);
      UpdateJudged(g.calls, CallAccept, user, target, id);
      UpdatedLaw(conn, g, CallAccept, "call_accept", user, target, id, reason, Ringing(g.calls, id, target, user),
                 "invalid_pending_call", g.calls[id := CallRecord(target, user, true)]);
    }
  }

  /** call_reject: the callee of a ringing call, and nobody else, ends it; the caller gets the reason. */
  lemma RejectLaw(conn: Users.Conn, g: Shared, user: string, fields: JsonObject, target: string, id: string, reason: string)
    requires Matching(g.calls) && user != ""
    requires Says(fields, "type", "call_reject") && Says(fields, "to", target) && Says(fields, "call_id", id) && Says(fields, "reason", reason)
    ensures Dispatch(fields).Handle?
    ensures var e := Reply(conn, g, user, fields);
            if !WellAddressed(user, target, id) then Refuses(e, conn, g, user, "call_error", id, AddressFault(user, target, id))
            else if !Ringing(g.calls, id, target, user) then Refuses(e, conn, g, user, "call_error", id, "invalid_pending_call")
            else LeadsOrQuiet(e, g, user, g.calls - {id}, target,
                              News("call_reject", user, target, id)["reason" := if reason == "" then "rejected" else reason])
  {
    hide Leads, Refuses, Gets, News, Reply, Dispatch, Says, WellAddressed, Updated, Ringing, Talking, Judge, After, OpOf;
    hide Matching, KindText, EventReasonText, ReasonOf, AddressFault, CallAnswer, IsSignal;
    UpdateTexts(reason);
    UpdateRequested(conn, g, user, fields, CallReject, "call_reject", target, id, reason);
    if WellAddressed(user, target, id) {
      AddressesOther(user, target, id);
      UpdateJudged(g.calls, CallReject, user, target, id);
      UpdatedLaw(conn, g, CallReject, "call_reject", user, target, id, reason, Ringing(g.calls, id, target, user),
                 "invalid_pending_call", g.calls - {id});
    }
  }

  /** call_cancel: the caller of a ringing call, and nobody else, ends it. */
  lemma CancelLaw(conn: Users.Conn, g: Shared, user: string, fields: JsonObject, target: string, id: string, reason: string)
    requires Matching(g.calls) && user != ""
    requires Says(fields, "type", "call_cancel") && Says(fields, "to", target) && Says(fields, "call_id", id) && Says(fields, "reason", reason)
    ensures Dispatch(fields).Handle?
    ensures var e := Reply(conn, g, user, fields);
            if !WellAddressed(user, target, id) then Refuses(e, conn, g, user, "call_error", id, AddressFault(user, target, id))
            else if !Ringing(g.calls, id, user, target) then Refuses(e, conn, g, user, "call_error", id, "invalid_pending_call")
            else LeadsOrQuiet(e, g, user, g.calls - {id}, target, News("call_cancel", user, target, id))
  {
    hide Leads, Refuses, Gets, News, Reply, Dispatch, Says, WellAddressed, Updated, Ringing, Talking, Judge, After, OpOf;
    hide Matching, KindText, EventReasonText, ReasonOf, AddressFault, CallAnswer, IsSignal;
    UpdateTexts(reason);
    UpdateRequested(conn, g, user, fields, CallCancel, "call_cancel", target, id, reason);
    if WellAddressed(user, target, id) {
      AddressesOther(user, target, id);
      UpdateJudged(g.calls, CallCancel, user, target, id);
      UpdatedLaw(conn, g, CallCancel, "call_cancel", user, target, id, reason, Ringing(g.calls, id, user, target),
                 "invalid_pending_call", g.calls - {id});
    }
  }

  /** call_timeout: the caller of a ringing call, and nobody else, ends it, for the reason "timeout". */
  lemma TimeoutLaw(conn: Users.Conn, g: Shared, user: string, fields: JsonObject, target: string, id: string, reason: string)
    requires Matching(g.calls) && user != ""
    requires Says(fields, "type", "call_timeout") && Says(fields, "to", target) && Says(fields, "call_id", id) && Says(fields, "reason", reason)
    ensures Dispatch(fields).Handle?
    ensures var e := Reply(conn, g, user, fields);
            if !WellAddressed(user, target, id) then Refuses(e, conn, g, user, "call_error", id, AddressFault(user, target, id))
            else if !Ringing(g.calls, id, user, target) then Refuses(e, conn, g, user, "call_error", id, "invalid_pending_call")
            else LeadsOrQuiet(e, g, user, g.calls - {id}, target, News("call_timeout", user, target, id)["reason" := "timeout"])
  {
    hide Leads, Refuses, Gets, News, Reply, Dispatch, Says, WellAddressed, Updated, Ringing, Talking, Judge, After, OpOf;
    hide Matching, KindText, EventReasonText, ReasonOf, AddressFault, CallAnswer, IsSignal;
    UpdateTexts(reason);
    UpdateRequested(conn, g, user, fields, CallTimeout, "call_timeout", target, id, reason);
    if WellAddressed(user, target, id) {
      AddressesOther(user, target, id);
      UpdateJudged(g.calls, CallTimeout, user, target, id);
      UpdatedLaw(conn, g, CallTimeout, "call_timeout", user, target, id, reason, Ringing(g.calls, id, user, target),
                 "invalid_pending_call", g.calls - {id});
    }
  }

  /** call_hangup: either side of an accepted call, and nobody else, ends it. */
  lemma HangupLaw(conn: Users.Conn, g: Shared, user: string, fields: JsonObject, target: string, id: string, reason: string)
    requires Matching(g.calls) && user != ""
    requires Says(fields, "type", "call_hangup") && Says(fields, "to", target) && Says(fields, "call_id", id) && Says(fields, "reason", reason)
    ensures Dispatch(fields).Handle?
    ensures var e := Reply(conn, g, user, fields);
            if !WellAddressed(user, target, id) then Refuses(e, conn, g, user, "call_error", id, AddressFault(user, target, id))
            else if !Talking(g.calls, id, user, target) then Refuses(e, conn, g, user, "call_error", id, "invalid_active_call")
            else LeadsOrQuiet(e, g, user, g.calls - {id}, target, News("call_hangup", user, target, id))
  {
    hide Leads, Refuses, Gets, News, Reply, Dispatch, Says, WellAddressed, Updated, Ringing, Talking, Judge, After, OpOf;
    hide Matching, KindText, EventReasonText, ReasonOf, AddressFault, CallAnswer, IsSignal;
    UpdateTexts(reason);
    UpdateRequested(conn, g, user, fields, CallHangup, "call_hangup", target, id, reason);
    if WellAddressed(user, target, id) {
      AddressesOther(user, target, id);
      UpdateJudged(g.calls, CallHangup, user, target, id);
      UpdatedLaw(conn, g, CallHangup, "call_hangup", user, target, id, reason, Talking(g.calls, id, user, target),
                 "invalid_active_call", g.calls - {id});
    }
  }

  // ---------------------------------------------------------------------------------------------
  // Signaling
  // ---------------------------------------------------------------------------------------------

  // Who may send which signal in an accepted call between the two; and the complaint to anybody else.
  predicate MaySignal(calls: CallMap, text: string, user: string, target: string, id: string) {
    && Talking(calls, id, user, target)
    && (text == "webrtc_offer" ==> calls[id].caller == user)
    && (text == "webrtc_answer" ==> calls[id].callee == user)
  }

  function SignalFault(calls: CallMap, text: string, user: string, target: string, id: string): string {
    if !Talking(calls, id, user, target) then "not_in_same_active_call"
    else if text == "webrtc_offer" then "only_caller_can_offer"
    else "only_callee_can_answer"
  }

  // The text of each kind of signal, and the field its payload is in.
  predicate SignalText(kind: CallType, text: string, name: string) {
    || (kind == WebrtcOffer && text == "webrtc_offer" && name == "sdp")
    || (kind == WebrtcAnswer && text == "webrtc_answer" && name == "sdp")
    || (kind == IceCandidateType && text == "ice_candidate" && name == "candidate")
  }

  /** webrtc_offer, webrtc_answer and ice_candidate: an offer is the caller's, an answer the callee's, and any
      signal is for the two users of an accepted call; it is forwarded as it is, and every client takes it as
      the sender's payload if that is one object without a newline. */
  lemma SignalLaw(conn: Users.Conn, g: Shared, user: string, fields: JsonObject, kind: CallType, text: string,
                  target: string, id: string, name: string, payload: string)
    requires Matching(g.calls) && user != "" && SignalText(kind, text, name)
    requires Says(fields, "type", text) && Says(fields, "to", target) && Says(fields, "call_id", id) && Says(fields, name, payload)
    ensures Dispatch(fields).Handle?
    ensures var e := Reply(conn, g, user, fields);
            if !WellAddressed(user, target, id) then Refuses(e, conn, g, user, "call_error", id, AddressFault(user, target, id))
            else if payload == "" || payload[0] != '{' then Refuses(e, conn, g, user, "call_error", id, "invalid_signaling_payload")
            else if !MaySignal(g.calls, text, user, target, id) then
              Refuses(e, conn, g, user, "call_error", id, SignalFault(g.calls, text, user, target, id))
            else if target in g.online then Forwards(e, g, user, target, text, id, name, payload)
            else Leads(e, g, user, g.calls - {id}, conn, CallAnswer("call_error", user, id, "target_offline"))
  {
    SignalRequested(fields, kind, text, target, id, name, payload);
    hide Dispatch, Says, Matching, Gets, Reply, FieldsOf, AddressFault, WellAddressed, Signaled, MaySignal, SignalFault, SignalText;
    AddressLaw(conn, g, user, fields, target, id);
    hide Refuses, Leads, Forwards;
    if WellAddressed(user, target, id) {
      UnsupportedLaw(conn, g, user, id);
      if PayloadAccepted(payload) { SignaledLaw(conn, g, user, kind, text, target, id, name, payload); }
    }
  }

  // One line to the peer, with the payload spliced in; nothing has changed.
  ghost predicate Forwards(e: Effect, g: Shared, user: string, target: string, text: string, id: string, name: string, payload: string)
    requires target in g.online
  {
    && e.shared == g && e.username == user && !e.closed && |e.sent| == 1 && e.sent[0].conn == g.online[target]
    && Render(e.sent[0].message) == "{" + Head(text, user, target, id) + "," + Quote(name) + ":" + payload + "}\n"
    && (IsObjectText(payload) && '\n' !in payload ==>
          Gets(e.sent[0], g.online[target], News(text, user, target, id)[name := payload]))
  }

  lemma SignalRequested(fields: JsonObject, kind: CallType, text: string, target: string, id: string, name: string, payload: string)
    requires SignalText(kind, text, name)
    requires Says(fields, "type", text) && Says(fields, "to", target) && Says(fields, "call_id", id) && Says(fields, name, payload)
    ensures Dispatch(fields).Handle? && IsSignal(kind)
    ensures exists media, reason :: Dispatch(fields).request == Call(kind, target, id, media, reason, payload)
  {
    var media := if "media" in fields then fields["media"] else "";
    var reason := if "reason" in fields then fields["reason"] else "";
    CallRequested(fields, kind, text, target, id, media, reason, name, payload);
  }

  lemma SignaledLaw(conn: Users.Conn, g: Shared, user: string, kind: CallType, text: string, target: string, id: string,
                    name: string, payload: string)
    requires Matching(g.calls) && SignalText(kind, text, name) && PayloadAccepted(payload)
    ensures var e := Signaled(conn, g, kind, Ref(user, target, id), payload);
            if !MaySignal(g.calls, text, user, target, id) then
              Refuses(e, conn, g, user, "call_error", id, SignalFault(g.calls, text, user, target, id))
            else if target in g.online then Forwards(e, g, user, target, text, id, name, payload)
            else Leads(e, g, user, g.calls - {id}, conn, CallAnswer("call_error", user, id, "target_offline"))
  {
    hide Gets, Matching, Judge, After, KindOf, MaySignal, SignalFault, Forwards, SignalText, Refuses, Leads, PayloadAccepted, CallAnswer;
    SignalJudged(g.calls, kind, text, user, target, id, name);
    Complained(conn, g, user, id, Rule(NotInSameActiveCall), "not_in_same_active_call");
    Complained(conn, g, user, id, Rule(OnlyCallerCanOffer), "only_caller_can_offer");
    Complained(conn, g, user, id, Rule(OnlyCalleeCanAnswer), "only_callee_can_answer");
    CallErrorGets(conn, user, id, TargetOffline, "target_offline");
    Announced(g, user, g.calls - {id}, conn, CallError(user, id, TargetOffline), CallAnswer("call_error", user, id, "target_offline"));
    if target in g.online { ForwardedLaw(conn, g, user, kind, text, target, id, name, payload); }
  }

  lemma SignalJudged(calls: CallMap, kind: CallType, text: string, user: string, target: string, id: string, name: string)
    requires SignalText(kind, text, name)
    ensures var verdict, fault := Judge(calls, Signal(user, target, id, KindOf(kind))), SignalFault(calls, text, user, target, id);
            && (verdict == Done <==> MaySignal(calls, text, user, target, id))
            && (verdict != Done ==>
                  || (verdict.reason == NotInSameActiveCall && fault == "not_in_same_active_call")
                  || (verdict.reason == OnlyCallerCanOffer && fault == "only_caller_can_offer")
                  || (verdict.reason == OnlyCalleeCanAnswer && fault == "only_callee_can_answer"))
  {
    assert |"webrtc_offer"| == 12 && |"webrtc_answer"| == 13 && |"ice_candidate"| == 13;
    assert "ice_candidate"[0] == 'i';
  }

  lemma ForwardedLaw(conn: Users.Conn, g: Shared, user: string, kind: CallType, text: string, target: string, id: string,
                     name: string, payload: string)
    requires target in g.online && SignalText(kind, text, name) && PayloadAccepted(payload)
    ensures Forwards(Effect(g, user, false, Told(g.online[target], Signaling(kind, user, target, id, payload))),
                     g, user, target, text, id, name, payload)
  {
    hide SignalText, KindText, PayloadName, HandledAs, IsObjectText, PayloadAccepted, Render, Head, Quote, SignalFields, News;
    var m := Signaling(kind, user, target, id, payload);
    TextOfSignal(m, text, name);
    SignalIsHandledIff(m, F.Unlimited);
    FitsAnything(Render(m));
  }

  lemma FitsAnything(line: string)
    requires line != ""
    ensures F.Fits(|line| - 1, F.Unlimited)
  {
  }

  lemma TextOfSignal(m: Message, text: string, name: string)
    requires m.Signaling? && SignalText(m.kind, text, name)
    ensures Render(m) == "{" + Head(text, m.sender, m.target, m.id) + "," + Quote(name) + ":" + m.payload + "}\n"
    ensures SignalFields(m.kind, m.sender, m.target, m.id, m.payload) == News(text, m.sender, m.target, m.id)[name := m.payload]
  {
    hide Head, Quote;
  }

  // ---------------------------------------------------------------------------------------------
  // Names and rooms
  // ---------------------------------------------------------------------------------------------

  function Notified(kind: string, message: string): JsonObject { map["type" := kind, "message" := message] }

  /** The managers and the session's name are these now, and the session gets this answer and nobody else
      anything. */
  ghost predicate Answers(e: Effect, g: Shared, user: string, conn: Users.Conn, kind: string, message: string) {
    e.shared == g && e.username == user && !e.closed && OneLine(e, conn, Notified(kind, message))
  }

  lemma NoticeAnswers(conn: Users.Conn, g: Shared, user: string, m: Message, kind: string, message: string)
    requires !m.Signaling? && FieldsOf(m) == Notified(kind, message)
    ensures Answers(Effect(g, user, false, Told(conn, m)), g, user, conn, kind, message)
  {
    hide Gets, FieldsOf, Notified;
    MessageGets(conn, m, Notified(kind, message));
  }

  lemma FailureAnswers(conn: Users.Conn, g: Shared, user: string, notice: Notice, message: string)
    requires NoticeText(notice) == message
    ensures Answers(Effect(g, user, false, Told(conn, Failure(notice))), g, user, conn, "error", message)
  {
    hide NoticeText, Answers;
    NoticeAnswers(conn, g, user, Failure(notice), "error", message);
  }

  lemma SuccessAnswers(conn: Users.Conn, g: Shared, user: string, notice: Notice, message: string)
    requires NoticeText(notice) == message
    ensures Answers(Effect(g, user, false, Told(conn, Success(notice))), g, user, conn, "ok", message)
  {
    hide NoticeText, Answers;
    NoticeAnswers(conn, g, user, Success(notice), "ok", message);
  }

  lemma RoomFailureAnswers(conn: Users.Conn, g: Shared, user: string, error: R.RoomError, message: string)
    requires RoomErrorText(error) == message
    ensures Answers(Effect(g, user, false, Told(conn, RoomFailure(error))), g, user, conn, "error", message)
  {
    hide RoomErrorText, Answers;
    NoticeAnswers(conn, g, user, RoomFailure(error), "error", message);
  }

  lemma WordRequested(fields: JsonObject, text: string, username: string, room: string)
    requires Says(fields, "type", text) && Says(fields, "username", username) && Says(fields, "room", room)
    ensures text == "login" ==> Dispatch(fields) == Handle(Login(username))
    ensures text == "logout" ==> Dispatch(fields) == Handle(Logout)
    ensures text == "create_room" ==> Dispatch(fields) == Handle(CreateRoom(room))
    ensures text == "join" ==> Dispatch(fields) == Handle(Join(room))
    ensures text == "leave" ==> Dispatch(fields) == Handle(Leave(room))
  {
    WordsDiffer();
    hide KindFrom, HasOtherHandler;
  }

  /** login: one name per session, one session per name, and only well-formed names. */
  lemma LoginLaw(conn: Users.Conn, g: Shared, user: string, fields: JsonObject, name: string)
    requires Matching(g.calls) && Says(fields, "type", "login") && Says(fields, "username", name)
    ensures Dispatch(fields).Handle?
    ensures var e := Reply(conn, g, user, fields);
            if user != "" then Answers(e, g, user, conn, "error", "session is already logged in")
            else if !IsValidName(name) then Answers(e, g, "", conn, "error", "invalid username")
            else if name in g.online then Answers(e, g, "", conn, "error", "username is already online")
            else Answers(e, g.(online := g.online[name := conn]), name, conn, "ok", "logged in as " + name)
  {
    hide Dispatch, Matching, Answers, Reply, IsValidName;
    WordRequested(fields, "login", name, if "room" in fields then fields["room"] else "");
    ReplyIsServed(conn, g, user, fields);
    FailureAnswers(conn, g, user, AlreadyLoggedIn, "session is already logged in");
    FailureAnswers(conn, g, "", BadUsername, "invalid username");
    FailureAnswers(conn, g, "", NameTaken, "username is already online");
    SuccessAnswers(conn, g.(online := g.online[name := conn]), name, LoggedInAs(name), "logged in as " + name);
  }

  /** create_room: a new room with a well-formed name is empty, and changes no other room. */
  lemma CreateLaw(conn: Users.Conn, g: Shared, user: string, fields: JsonObject, room: string)
    requires Matching(g.calls) && Says(fields, "type", "create_room") && Says(fields, "room", room)
    ensures Dispatch(fields).Handle?
    ensures var e := Reply(conn, g, user, fields);
            if user == "" then Answers(e, g, "", conn, "error", "login required")
            else if !IsValidName(room) then Answers(e, g, user, conn, "error", "invalid room name")
            else if room in g.rooms then Answers(e, g, user, conn, "error", "room already exists")
            else Answers(e, g.(rooms := g.rooms[room := {}]), user, conn, "ok", "room created")
  {
    hide Dispatch, Matching, Answers, Reply, IsValidName;
    WordRequested(fields, "create_room", if "username" in fields then fields["username"] else "", room);
    ReplyIsServed(conn, g, user, fields);
    FailureAnswers(conn, g, "", NeedsLogin, "login required");
    RoomFailureAnswers(conn, g, user, R.InvalidRoomName, "invalid room name");
    RoomFailureAnswers(conn, g, user, R.RoomExists, "room already exists");
    SuccessAnswers(conn, g.(rooms := g.rooms[room := {}]), user, RoomCreated, "room created");
  }

  /** join: an existing room has this member more, and no other room changes. */
  lemma JoinLaw(conn: Users.Conn, g: Shared, user: string, fields: JsonObject, room: string)
    requires Matching(g.calls) && Says(fields, "type", "join") && Says(fields, "room", room)
    ensures Dispatch(fields).Handle?
    ensures var e := Reply(conn, g, user, fields);
            if user == "" then Answers(e, g, "", conn, "error", "login required")
            else if room !in g.rooms then Answers(e, g, user, conn, "error", "room does not exist")
            else Answers(e, g.(rooms := g.rooms[room := g.rooms[room] + {user}]), user, conn, "ok", "joined room")
  {
    hide Dispatch, Matching, Answers, Reply, IsValidName;
    WordRequested(fields, "join", if "username" in fields then fields["username"] else "", room);
    ReplyIsServed(conn, g, user, fields);
    FailureAnswers(conn, g, "", NeedsLogin, "login required");
    RoomFailureAnswers(conn, g, user, R.NoSuchRoom, "room does not exist");
    if room in g.rooms { SuccessAnswers(conn, g.(rooms := g.rooms[room := g.rooms[room] + {user}]), user, JoinedRoom, "joined room"); }
  }

  /** leave: a room the user is in has this member less, stays if that was the last one, and no other room
      changes. */
  lemma LeaveLaw(conn: Users.Conn, g: Shared, user: string, fields: JsonObject, room: string)
    requires Matching(g.calls) && Says(fields, "type", "leave") && Says(fields, "room", room)
    ensures Dispatch(fields).Handle?
    ensures var e := Reply(conn, g, user, fields);
            if user == "" then Answers(e, g, "", conn, "error", "login required")
            else if room !in g.rooms then Answers(e, g, user, conn, "error", "room does not exist")
            else if user !in g.rooms[room] then Answers(e, g, user, conn, "error", "user is not in room")
            else Answers(e, g.(rooms := g.rooms[room := g.rooms[room] - {user}]), user, conn, "ok", "left room")
  {
    hide Dispatch, Matching, Answers, Reply, IsValidName;
    WordRequested(fields, "leave", if "username" in fields then fields["username"] else "", room);
    ReplyIsServed(conn, g, user, fields);
    FailureAnswers(conn, g, "", NeedsLogin, "login required");
    RoomFailureAnswers(conn, g, user, R.NoSuchRoom, "room does not exist");
    RoomFailureAnswers(conn, g, user, R.NotAMember, "user is not in room");
    if room in g.rooms { SuccessAnswers(conn, g.(rooms := g.rooms[room := g.rooms[room] - {user}]), user, LeftRoom, "left room"); }
  }

  /** A call request without a login is answered so whatever else it says. */
  lemma CallNeedsLogin(conn: Users.Conn, g: Shared, fields: JsonObject)
    requires Matching(g.calls) && Dispatch(fields).Handle? && Dispatch(fields).request.Call?
    ensures Answers(Reply(conn, g, "", fields), g, "", conn, "error", "login required")
  {
    hide Dispatch, Matching, Answers, Reply;
    ReplyIsServed(conn, g, "", fields);
    FailureAnswers(conn, g, "", NeedsLogin, "login required");
  }

  // ---------------------------------------------------------------------------------------------
  // Leaving
  // ---------------------------------------------------------------------------------------------

  // The name is free if it was this connection's, the user is in no room and no call, and all else is as it was.
  ghost predicate Gone(g: Shared, g': Shared, conn: Users.Conn, user: string) {
    && (forall u :: u in g'.online <==> u in g.online && !(u == user && g.online[u] == conn))
    && (forall u | u in g'.online :: g'.online[u] == g.online[u])
    && g'.rooms.Keys == g.rooms.Keys && (forall r | r in g.rooms :: g'.rooms[r] == g.rooms[r] - {user})
    && (forall k :: k in g'.calls <==> k in g.calls && g.calls[k].caller != user && g.calls[k].callee != user)
    && (forall k | k in g'.calls :: g'.calls[k] == g.calls[k])
  }

  predicate Between(call: CallRecord, user: string, peer: string) {
    (call.caller == user && call.callee == peer) || (call.callee == user && call.caller == peer)
  }

  // How a call ends when a user is gone: hung up, given up by its caller, or turned down by its callee.
  function Farewell(call: CallRecord, user: string): string {
    if call.accepted then "call_hangup" else if call.caller == user then "call_cancel" else "call_reject"
  }

  /** If the user was in a call, its peer is told how it ended, if he is online; nobody else is told by
      this part of logout. */
  ghost predicate TellsPeer(sent: seq<Delivery>, g: Shared, user: string) {
    && (!InCall(g.calls, user) ==> sent == [])
    && forall k, peer | k in g.calls && Between(g.calls[k], user, peer) ::
         if peer in g.online then
           |sent| == 1 && Gets(sent[0], g.online[peer], News(Farewell(g.calls[k], user), user, peer, k)["reason" := "peer_disconnected"])
         else sent == []
  }

  /** logout, and the end of a connection, which differ in who is still there to be answered. */
  lemma LeaveServerLaw(conn: Users.Conn, g: Shared, user: string, closing: bool)
    requires Matching(g.calls) && user != ""
    ensures var e := Served(conn, g, user, if closing then Disconnect else Logout);
            && Gone(g, e.shared, conn, user) && e.username == "" && e.closed == closing
            && var told := |e.sent| - (if closing then 0 else 1);
               && told >= 0 && TellsPeer(e.sent[..told], g, user)
               && (!closing ==> Gets(e.sent[told], conn, Notified("ok", "logged out")))
  {
    PeerToldLaw(g, user);
    LeftIsGone(conn, g, user, closing);
    LoggedOutGets(conn);
    hide Gone, TellsPeer, Gets, PeerTold, Matching, R.WithoutUser, Busy, Notified;
    var e := Served(conn, g, user, if closing then Disconnect else Logout);
    assert e.sent[..|PeerTold(g, user)|] == PeerTold(g, user);
  }

  lemma LogoutLaw(conn: Users.Conn, g: Shared, user: string, fields: JsonObject)
    requires Matching(g.calls) && Says(fields, "type", "logout")
    ensures Dispatch(fields).Handle?
    ensures var e := Reply(conn, g, user, fields);
            if user == "" then Answers(e, g, "", conn, "error", "session is not logged in")
            else
              && Gone(g, e.shared, conn, user) && e.username == "" && !e.closed && |e.sent| > 0
              && TellsPeer(e.sent[..|e.sent| - 1], g, user) && Gets(e.sent[|e.sent| - 1], conn, Notified("ok", "logged out"))
  {
    hide Dispatch, Matching, Answers, Reply, Left, Gone, TellsPeer, Gets, Notified;
    WordRequested(fields, "logout", if "username" in fields then fields["username"] else "", if "room" in fields then fields["room"] else "");
    ReplyIsServed(conn, g, user, fields);
    if user == "" { FailureAnswers(conn, g, "", NotLoggedIn, "session is not logged in"); }
    else { LeaveServerLaw(conn, g, user, false); }
  }

  lemma LoggedOutGets(conn: Users.Conn)
    ensures Gets(Delivery(conn, Success(LoggedOut)), conn, Notified("ok", "logged out"))
  {
    hide Gets;
    MessageGets(conn, Success(LoggedOut), Notified("ok", "logged out"));
  }

  lemma LeftIsGone(conn: Users.Conn, g: Shared, user: string, closing: bool)
    requires Matching(g.calls)
    ensures Gone(g, Left(conn, g, user, closing).shared, conn, user)
  {
    hide PeerTold;
    var g' := Left(conn, g, user, closing).shared;
    if Busy(g.calls, user) {
      assert g.calls[CallOf(g.calls, user)].Has(user);
    } else {
      BusyIsInCall(g.calls, user);
    }
  }

  lemma PeerToldLaw(g: Shared, user: string)
    requires Matching(g.calls)
    ensures TellsPeer(PeerTold(g, user), g, user)
  {
    BusyIsInCall(g.calls, user);
    if Busy(g.calls, user) {
      var k := CallOf(g.calls, user);
      var peer := g.calls[k].PeerOf(user);
      OnlyPeer(g.calls, user, k, peer);
      if peer in g.online { FarewellGets(g.online[peer], g.calls[k], user, peer, k); }
      hide Gets, News, Farewell;
    }
  }

  lemma OnlyPeer(calls: CallMap, user: string, k: string, peer: string)
    requires Matching(calls) && k in calls && calls[k].Has(user) && peer == calls[k].PeerOf(user)
    ensures forall k', peer' | k' in calls && Between(calls[k'], user, peer') :: k' == k && peer' == peer
  {
    forall k', peer' | k' in calls && Between(calls[k'], user, peer') ensures k' == k && peer' == peer {
      assert calls[k'].Has(user);
    }
  }

  lemma FarewellGets(conn: Users.Conn, call: CallRecord, user: string, peer: string, k: string)
    ensures var kind := if call.accepted then CallHangup else if call.caller == user then CallCancel else CallReject;
            Gets(Delivery(conn, CallEvent(kind, user, peer, k, PeerDisconnected)), conn,
                 News(Farewell(call, user), user, peer, k)["reason" := "peer_disconnected"])
  {
    var kind := if call.accepted then CallHangup else if call.caller == user then CallCancel else CallReject;
    assert KindText(kind) == Farewell(call, user) && EventReasonText(PeerDisconnected) == "peer_disconnected" != "";
    hide KindText, Gets, News, Farewell, EventReasonText;
    EventGets(conn, kind, Farewell(call, user), user, peer, k, PeerDisconnected);
  }
}
