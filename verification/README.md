# A verified model of the chat server and its reactor

The repository is a chat and video-call server on the muduo reactor library.  This project models
the parts of it in which something can go wrong between functions, threads or bytes, and proves
that it does not, or says exactly when it does.

- **Calls, rooms, names and sessions.**  `CallManager`, `RoomManager` and `UserManager` are classes
  over the maps the server keeps.  Each of their methods runs under a mutex, so it is one atomic
  step.  A request handler is a sequence of such steps, and the steps of different sessions
  interleave: `ChatProtocol` is the step function of one session, `ProtocolSafety` proves what
  every interleaving keeps, `CallHistory` what can happen to one call id over a whole run,
  `Requests` what a request amounts to when nobody steps in, `ChatLaws` what its sender and everybody
  else then gets to see, in the words of the lines sent, and `ChatServers` runs the handlers on the
  real managers, step for step as the step function says.
- **The wire.**  `Json` gives the parser, the printer and raw slicing as functions of the text and
  the cursor, and `JsonCursor` the loops that move the cursor.  `JsonRoundTrip`, `JsonGrammar`,
  `JsonSoundness`, `JsonObjects`, `JsonFaults` and `JsonSignaling` say what these mean; `Framing` cuts lines out of
  a stream in fragments, on the server, which limits their length, and at the client, which does not;
  `SignalFraming` says which forwarded payloads survive that, and `Wire` connects lines to handlers
  and messages to lines.  `EndToEnd` follows objects from one
  connection's output buffer to the other side's handlers.
- **The reactor.**  `Buffers`, `TcpConnections`, `EventLoops`, `TimerQueues` and `Pollers` model
  muduo's byte buffer, the output side of a connection, functors and wakeups, timers, and both
  pollers.
- **The logger and the calendar.**  `AsyncLoggings` is the double-buffered logger, `Dates` and
  `TimeZones` the calendar arithmetic and the search for a local time.

Bytes are Dafny `char`s.  System calls, the clock, the allocator and the scheduler are inputs: what
`write(2)` answers, which address `new` returns, which thread moves next.  Integers are unbounded;
where the width matters it is written out (the eventfd's limit, the fixed-width fields of a buffer)
or shown to be enough (`Dates.DateOfFitsInt`).  Every method states the new state as a function of
the old one, or refines an abstract state, and the lemmas are about these functions.

The proofs turned up places where the code does less than one might expect.  Each has a lemma with
the exact condition:

- The one-to-one matching of calls survives everything but a user calling himself, which only the
  handler rules out (`Calls.MatchingPreserved`).
- A ringing callee can be recorded after his session has given up his name
  (`ProtocolSafety.RingingCalleeCanBeOffline`).  Both participants of every call stay online exactly
  as long as no invitation is recorded whose target has no session that is logged in and has not yet
  dropped its calls (`ProtocolSafety.BackingKeptIff`, `ProtocolSafety.AllBackedIffNoUnbackedStart`);
  if whole requests are atomic none ever is.
- A signaling payload that merely starts with `{` passes the server's guard.  A peer
  takes the event built around it as it was meant, however its bytes arrive, exactly if the payload
  is one JSON object and holds no newline (`SignalFraming.SignalingHandledIff`); a peer with a limit
  on its lines, like the gateway, only if the line fits that, too.  Payloads sliced as objects out of
  a line are such; string fields need not be.
- How a stream is cut into reads can be observed exactly if a complete line exceeds the receiver's
  limit (`Framing.FragmentationIsInvisibleIffLinesFit`).
- A functor the loop thread queues before `loop()` is stranded
  (`EventLoops.NothingStrandedIffCoveredAtEntry`).
- Cancelling a timer whose `addTimerInLoop` has not run has no effect
  (`TimerQueues.CancelDoomsIffAdded`).
- A connection is half-closed over messages of other threads that are still queued, and so lost,
  exactly when the loop thread calls `shutdown` with nothing buffered, when the buffer drains after a
  `shutdown` from any thread, or when a queued shutdown whose call overlapped theirs runs before them
  with nothing buffered (`TcpConnections.HalfClosesOverQueueIff`).  While nothing else fails,
  everything sent survives exactly if this does not happen and no message is queued after the
  half-close, by a `send` that had passed its check before (`TcpConnections.SentSurvivesIffNoneLost`).
- `connectDestroyed` leaves a channel without interest exactly if the connection is not
  disconnecting, which it can be (`TcpConnections.DestroyedIsQuietIffNotDisconnecting`).
- A channel whose first update asks for no events could not be removed from `PollPoller` again
  (`Pollers.ParkedIffUpdatedBefore`).
- Lines appended to the logger after it took its last batch stay in memory: the file of a stopped
  logger is complete exactly if there are none
  (`AsyncLoggings.StoppedFileIsCompleteIffNothingSinceTake`).
- Seconds in the hours repeated by the first and by the last transition are not recovered from their
  local time (`TimeZones.RecoveredIffNotLost`).

`dafny verify dfyconfig.toml` checks everything.

## Model

| member | source | states |
|---|---|---|
| ProtocolSafety.EveryInterleavingIsSafe | server/ChatServer.cc:314-796 | In every state reachable by interleaving sessions at mutex granularity, the caller of each call, both parties of each accepted one and each member of each room are online through a session that has not passed the matching step of its logout, and no two sessions at rest share a name |
| ProtocolSafety.InvKept | server/ChatServer.cc:314-796 | One step of any session keeps the inductive invariant behind that, whatever all others are in the middle of |
| ProtocolSafety.RingingCalleeCanBeOffline | server/ChatServer.cc:347-373 | The exemption of ringing callees is needed: a concrete interleaving of logout and invite reaches it |
| ProtocolSafety.BackingKeptIff | server/ChatServer.cc:643-676 | From any state whose calls all have both participants online, a step of any session leads to one that does not if and only if it records an invitation whose target has no session logged in and before the removal of its calls |
| ProtocolSafety.AllBackedIffNoUnbackedStart | server/ChatServer.cc:314-796 | Over a whole run both participants of every call are online in every state if and only if no step records such an invitation |
| ProtocolSafety.SerialRunsBackEveryParticipant | server/ChatServer.cc:608-796 | If every request runs to its end before the next starts, both participants of every call are online, ringing or not |
| ProtocolSafety.StepKeepsRooms | server/RoomManager.cc:8-102 | No step of any session removes a room, and a membership changes only by a step of a session of that very user |
| ProtocolSafety.RoomsStay | server/RoomManager.cc:8-102 | In every run a room that was created is there in every later state |
| ProtocolSafety.InviteRollsBack | server/ChatServer.cc:677-686 | When the target went offline after an invitation was recorded, two steps of the session leave the call not ringing, whatever others do in between, change no other call, and tell the caller |
| ChatProtocol.AdvanceKeepsMatching | server/ChatServer.cc:608-796 | Every step of every handler keeps calls one-to-one, and brings the request nearer to its end |
| ChatProtocol.Finish | server/ChatServer.cc:314-796 | A request run alone ends with its session at rest and calls still one-to-one |
| Requests.RequestIsServed | server/ChatServer.cc:314-796 | A request run alone, in up to five manager calls with lookups repeated and changes rolled back, amounts to one change of the managers and the messages of a one-step meaning |
| Requests.InviteIsServed | server/ChatServer.cc:643-695 | An invitation is recorded and announced, or refused with the first complaint; run alone it never rolls back |
| Requests.UpdateIsServed | server/ChatServer.cc:697-795 | A changed call is told to the peer; an accepted call whose peer is gone is over, other changes stand |
| Requests.LogoutIsServed | server/ChatServer.cc:334-380 | Logging out ends the user's call, tells his peer how, and frees his rooms and, if he owns it, his name |
| Requests.CallRequestsAreAnsweredOnce | server/ChatServer.cc:608-796 | Where requests run one at a time each call request is answered by exactly one message: a complaint to the sender, and nothing has changed, or the news to the peer |
| ChatLaws.InvitationLaw | server/ChatServer.cc:608-695 | From the fields of a call_invite to the fields of the one line sent: refused with the first of eight complaints that applies and nothing changed, or recorded as ringing and the callee gets call_invite from the sender with media video |
| ChatLaws.AcceptLaw | server/ChatServer.cc:697-795 | call_accept succeeds exactly for the callee of that ringing call, and the caller gets it; if the caller is offline the call is over and the callee is told target_offline; else invalid_pending_call |
| ChatLaws.RejectLaw | server/ChatServer.cc:697-795 | call_reject succeeds exactly for the callee of that ringing call, which ends, and the caller, if online, gets the reason, or rejected if it is empty |
| ChatLaws.CancelLaw | server/ChatServer.cc:697-795 | call_cancel succeeds exactly for the caller of that ringing call, which ends, and the callee, if online, gets it |
| ChatLaws.TimeoutLaw | server/ChatServer.cc:697-795 | call_timeout succeeds exactly for the caller of that ringing call, which ends, and the callee, if online, gets it with the reason timeout |
| ChatLaws.HangupLaw | server/ChatServer.cc:697-795 | call_hangup succeeds exactly for either side of that accepted call, which ends, and the other, if online, gets it |
| ChatLaws.SignalLaw | server/ChatServer.cc:719-761 | webrtc_offer is forwarded exactly from the caller, webrtc_answer exactly from the callee, ice_candidate from either, of an accepted call between the two, spliced into one line to the peer; else the complaint says which of the three conditions fails |
| ChatLaws.CallNeedsLogin | server/ChatServer.cc:608-618 | Any call request without a login is answered login required and changes nothing |
| ChatLaws.LoginLaw | server/ChatServer.cc:314-332 | login is refused for a session that has a name, a malformed name and a taken one, each in its words, and else registers the name for the connection and the session |
| ChatLaws.CreateLaw | server/ChatServer.cc:449-465 | create_room adds exactly an empty room with that well-formed, unused name |
| ChatLaws.JoinLaw | server/ChatServer.cc:467-483 | join adds exactly the user to exactly that existing room |
| ChatLaws.LeaveLaw | server/ChatServer.cc:485-501 | leave takes exactly the user out of exactly that room, which stays |
| ChatLaws.LeaveServerLaw | server/ChatServer.cc:334-380 | Whoever logs out or loses his connection is in no room and no call, his name is free if it was this connection's, all else is as it was, and the peer of his call, if online, gets call_hangup, call_cancel or call_reject with the reason peer_disconnected |
| ChatLaws.LogoutLaw | server/ChatServer.cc:334-380 | The same from the fields of the request, and the session gets logged out; without a login it is told so |
| ChatServers.ChatServer.TakeRequest | server/ChatServer.cc:314-345 | The login checks of each handler, written out, change no manager, and answer or start the request as the protocol says |
| ChatServers.ChatServer.HandleCallRequest | server/ChatServer.cc:608-735 | The checks of target, call id, self call, media and payload, in the source's order, answer or start a call request as the protocol says |
| ChatServers.ChatServer.StepLogin | server/ChatServer.cc:314-332 | login on the real managers is the protocol's two steps |
| ChatServers.ChatServer.StepLogout | server/ChatServer.cc:334-380 | logout on the real managers is the protocol's five steps, in the order call, peer, rooms, name, session |
| ChatServers.ChatServer.StepRoom | server/ChatServer.cc:449-501 | createRoom, joinRoom and leaveRoom on the real managers are the protocol's steps |
| ChatServers.ChatServer.StepInvite | server/ChatServer.cc:643-695 | The four steps of an invitation, with the second lookup and the rollback |
| ChatServers.ChatServer.StepUpdate | server/ChatServer.cc:697-718 | accept, reject, cancel, timeout and hangup change the calls as the protocol says |
| ChatServers.ChatServer.StepNotify | server/ChatServer.cc:763-788 | The peer of a changed call is told, with the reason of a rejection or timeout |
| ChatServers.ChatServer.StepSignal | server/ChatServer.cc:719-741 | Signaling is checked against the call before it is routed |
| ChatServers.ChatServer.StepRoute | server/ChatServer.cc:743-760 | A checked signal goes to the peer if he is still online |
| ChatServers.ChatServer.StepRollback | server/ChatServer.cc:745-752 | The call is hung up when an accepted or signaled peer turns out to be gone |
| Calls.MatchingPreserved | server/CallManager.cc:6-211 | An operation keeps calls one-to-one if and only if it is not a successful call to oneself |
| Calls.OperationLaw | server/CallManager.cc:6-211 | For every operation, on caller, callee and acceptance of the calls: exactly when it succeeds, and the calls it leaves |
| Calls.ListedIffBusy | server/CallManager.cc:6-46 | In mirrored maps the listed users are exactly the participants of calls |
| Calls.MirrorsStarted | server/CallManager.cc:28-44 | Starting a call between two idle users keeps the two maps mirrors of each other |
| Calls.MirrorsAccepted | server/CallManager.cc:68-79 | Accepting keeps both participants' states equal to the record's |
| Calls.MirrorsErased | server/CallManager.cc:255-267 | Erasing a call takes both its participants off the list and nobody else |
| Calls.CallManager.StartCall | server/CallManager.cc:6-46 | The guard over both maps succeeds exactly when the one-map judgement does, in its order of complaints; the call is recorded as ringing |
| Calls.CallManager.AcceptCall | server/CallManager.cc:48-81 | Succeeds exactly for the callee of that ringing call; both maps agree afterwards |
| Calls.CallManager.RejectCall | server/CallManager.cc:83-94 | Succeeds exactly for the callee of that ringing call, which it removes |
| Calls.CallManager.CancelCall | server/CallManager.cc:96-107 | Succeeds exactly for the caller of that ringing call, which it removes |
| Calls.CallManager.TimeoutCall | server/CallManager.cc:109-120 | Succeeds exactly for the caller of that ringing call, which it removes |
| Calls.CallManager.HangupCall | server/CallManager.cc:122-151 | Succeeds exactly for either participant of that accepted call, which it removes |
| Calls.CallManager.ValidateSignaling | server/CallManager.cc:153-192 | Changes nothing; offers only from the caller, answers only from the callee, of that accepted call |
| Calls.CallManager.RemoveUser | server/CallManager.cc:194-211 | Removes the user's call, if there is one, and reports its id, the peer and the state the user was in |
| CallHistory.HistoryIsRepeatedLives | server/CallManager.cc:6-211 | Over any run, what succeeds on one call id is a repetition of start, then one ending, or accept, signals and one ending |
| CallHistory.LifeGoesOn | server/CallManager.cc:6-211 | Each operation continues, ends or leaves alone the current life of a call id |
| CallHistory.SignalsComeFromTheirSide | server/CallManager.cc:153-192 | A validated offer comes from the caller and an answer from the callee of the life it belongs to |
| CallHistory.LifeDecides | server/CallManager.cc:6-211 | After any run the unfinished life of a call id decides what succeeds on it: while ringing, accept and reject by the callee and cancel and timeout by the caller; once accepted, hangup by either, offers from the caller, answers from the callee; always, and nothing else |
| Rooms.InverseIsUnique | server/RoomManager.cc:27-102 | The reverse index is determined by the memberships |
| Rooms.RoomManager.JoinRoom | server/RoomManager.cc:27-43 | Joins exactly an existing room and keeps both maps inverse |
| Rooms.RoomManager.LeaveRoom | server/RoomManager.cc:45-76 | Leaves exactly a room the user is in, and drops an empty reverse entry |
| Rooms.RoomManager.LeaveAll | server/RoomManager.cc:78-102 | Driven only by the reverse index, removes the user from every room, changes no other membership, and keeps every room, even one nobody is left in |
| Rooms.RoomManager.RoomCount | server/RoomManager.cc:104-119 | Counts exactly the rooms somebody is in |
| Rooms.RoomManager.MembersForMessage | server/RoomManager.cc:121-151 | Members in ascending order, for members only |
| Users.LookupAllOfOnline | server/UserManager.cc:54-80 | findMany keeps order, drops who is offline and adds nobody |
| Users.UserManager.Login | server/UserManager.cc:8-27 | A valid name nobody holds is registered for the connection |
| Users.UserManager.Logout | server/UserManager.cc:29-39 | Only the connection that owns a name gives it up |
| Names.AscendingIsSorted | common/Json.cc:539-556 | The order std::map walks its keys in: every key once, ascending by bytes |
| Names.LessLaw | common/Json.cc:539-556 | The order is that of bytes: at the first difference, or where only the first string ends |
| Names.NameLaw | common/Protocol.cc:79-96 | A name is valid if and only if it is 1 to 32 ASCII letters, digits, underscores, hyphens and dots; a call id up to 128 |
| JsonCursor.ParseString | common/Json.cc:74-155 | The cursor loop decodes the string the text holds and stops behind its quote, or reports the first fault |
| JsonCursor.ParseUnicodeEscape | common/Json.cc:40-72 | Four hexadecimal digits up to 7f, or which fault |
| JsonCursor.ParseNumberAsString | common/Json.cc:157-219 | The longest number at the cursor, cut out as it is written |
| JsonCursor.ConsumeValue | common/Json.cc:336-375 | Moves the cursor past one value, or reports the first fault; every success advances it |
| JsonCursor.ConsumeArray | common/Json.cc:239-279 | The array loop ends where the recursive reading of an array does |
| JsonCursor.ConsumeObject | common/Json.cc:281-334 | The object loop ends where the recursive reading of an object does |
| JsonCursor.ParseJsonObject | common/Json.cc:405-485 | The top-level loop builds the map of the recursive reading, the last of equal keys winning |
| JsonCursor.EscapeJsonString | common/Json.cc:487-537 | The loop writes each byte's escape |
| JsonCursor.SerializeJsonObject | common/Json.cc:539-556 | The loop writes the fields in ascending order of their keys, with commas between |
| Json.SkipValue | common/Json.cc:336-375 | A success ends behind its start and within the text: the measure of the mutual recursion |
| JsonRoundTrip.SerializeThenParse | common/Json.cc:405-556 | Every map from byte strings to byte strings is read back from what is written of it |
| JsonRoundTrip.QuotedRead | common/Json.cc:74-155 | A quoted string is read back, whatever surrounds it |
| JsonRoundTrip.FieldRead | common/Json.cc:433-481 | A written field lands in the map and leaves the cursor at the next one |
| JsonRoundTrip.LineHasOneNewline | common/Json.cc:558-561 | A JSON line holds exactly one newline, its last byte |
| JsonGrammar.RfcValueAccepted | common/Json.cc:157-375 | Every value of sections 2 to 7 of RFC 8259 with ASCII \u escapes, followed by white space, comma, closing bracket or brace or the end, is consumed exactly to its last byte |
| JsonGrammar.ValueAccepted | common/Json.cc:157-375 | The same for the language with the source's liberties |
| JsonGrammar.StrictIsOk | common/Json.cc:157-219 | What the RFC allows the source allows |
| JsonSoundness.AcceptedLanguage | common/Json.cc:157-375 | Up to a delimiter, consumeJsonValue stops at e if and only if the text up to e is white space and one value of the grammar |
| JsonSoundness.ValueTaken | common/Json.cc:336-375 | Whatever is accepted has a derivation in the grammar |
| JsonSoundness.LibertiesTaken | common/Json.cc:157-219 | Leading zeros and a vertical tab are accepted, against the RFC |
| JsonObjects.ParsedLanguage | common/Json.cc:377-485 | parseJsonObject succeeds with a map if and only if the text is white space, one object of the grammar and white space, and the map is that of its members, strings decoded, other values as written, the last of equal keys winning |
| JsonFaults.FirstFault | common/Json.cc:74-155 | A string is refused with a fault if and only if legal characters lead up to a place where that is wrong: of seven faults the one that comes first |
| JsonFaults.EscapeLaw | common/Json.cc:100-140 | What each of the eight short escapes stands for, wherever it stands |
| JsonFaults.DigitLaw | common/Json.cc:20-38 | Which bytes are hexadecimal digits of either case and what they count, which are digits, and which are white space |
| JsonFaults.WritingLaw | common/Json.cc:487-537 | Which bytes are written with a short escape, which as \u00xy, and that all others are written as they are |
| JsonFaults.NoObject | common/Json.cc:405-418 | A text whose first byte behind white space is not a brace is refused as no object |
| JsonFaults.TrailingIsRefused | common/Json.cc:419-431 | A text that goes on behind its one object is refused for that |
| JsonFaults.LeastFieldFirst | common/Json.cc:539-556 | The field with the least key is written first, and behind it what is written of the map without it |
| JsonSignaling.ValueLocal | common/Json.cc:239-375 | Consuming a value that is not a bare number depends only on the bytes of its own span, wherever they stand |
| JsonSignaling.ForwardedIffObject | server/ChatServer.cc:127-144 | The event built around an accepted payload is read as the four fields and the same payload text if and only if that text is one object |
| JsonSignaling.SlicedObjectIsForwarded | server/ChatServer.cc:127-144 | An object value sliced out of any request is forwarded unchanged |
| JsonSignaling.NewValuesAreShort | common/Json.cc:433-481 | Reading members never invents a value longer than the text left |
| JsonSignaling.BraceIsNotEnough | server/ChatServer.cc:723-732 | The payload "{" passes the guard and is not read back |
| Framing.OnMessage | server/ChatServer.cc:823-871 | The loop handles exactly the complete lines in the buffer, in order, keeps the unfinished one, and closes if that exceeds the limit |
| Framing.LineLaw | server/ChatServer.cc:833-866 | Wherever it stands in a stream and whether it ends in LF or CR LF, an empty line is passed over, one that is an object is handled as its fields, and any other is answered with its fault |
| Framing.UnfinishedLaw | server/ChatServer.cc:867-871 | Bytes without a line end wait, and more than 65536 of them close the connection to the server but not the client's |
| Framing.ShowLines | client/ChatClient.cc:104-124 | The client's loop shows exactly the complete lines in the buffer, in order, however long, and keeps the unfinished one; what it shows reads as what a receiver without a limit handles |
| Framing.CutAnywhere | server/ChatServer.cc:833-847 | The lines of a stream are those of any front, then those its unfinished line makes with the rest |
| Framing.FragmentationIsInvisibleIffLinesFit | server/ChatServer.cc:823-871 | What a receiver with any limit, or none, handles is the same for every split into reads if and only if every complete line fits its limit; so always without one |
| Framing.WrittenObjectsArrive | server/ChatServer.cc:823-871 | A stream of JSON lines that fit the receiver's limit, if it has one, is handled as exactly the objects written, in order, however it is cut |
| SignalFraming.SignalingHandledIff | server/ChatServer.cc:127-144 | A receiver takes the event built around an accepted payload as the four fields and the payload, in every split of its bytes into reads, if and only if the payload is one object and holds no newline, and the line fits the receiver's limit, if it has one (the clients have none) |
| SignalFraming.LineHandledIff | server/ChatServer.cc:823-871 | A line is handled in every split as exactly one request with these fields if and only if it parses to them and fits the receiver's limit, if it has one |
| SignalFraming.SlicedPayloadQualifies | server/ChatServer.cc:723-732 | A payload sliced as an object out of a received line is one object without a newline |
| SignalFraming.NewlineInStringField | server/ChatServer.cc:723-732 | A string field "{\n}" is received by the server, passes the guard and is one object, and no receiver takes the event built around it as it was meant |
| Wire.DispatchMeans | server/ChatSession.cc:30-118 | A request goes to a handler if and only if its type is that handler's word, with the named fields that handler asks for, absent ones empty, and is complained of if and only if its type is none of the words |
| Wire.KindIsDispatched | server/ChatSession.cc:102-113 | Every call type is dispatched as itself, with the fields to, call_id, media, reason, and sdp or candidate |
| Wire.MessageIsHandled | server/ChatServer.cc:78-120 | Every message but forwarded signaling is one line; a receiver takes it, in every split into reads, as the fields it was made of, if and only if it fits the limit of that receiver, if there is one |
| Wire.SignalIsHandledIff | server/ChatServer.cc:127-144 | A peer takes a forwarded signal as its fields in every split if and only if the payload is one object without a newline, and the line fits the peer's limit, if it has one |
| Wire.SignalingIsOneLineIff | server/ChatServer.cc:127-144 | Forwarded signaling is one line if and only if its payload holds no newline |
| Wire.SignalArrives | server/ChatServer.cc:719-760 | Whatever pieces the two lines arrive in, the server handles the sender's line, if it fits its limit, as one request, which leads to one message, to the peer; and every client takes that as the sender's payload under the sender's login name, whatever the request claimed, as does a peer with a limit if and only if the line fits it |
| EndToEnd.HandledIsPrefixOfSent | client/ChatClient.cc:68-79 | However writes and reads were cut short so far, what the receiver handled, the server or one with another limit or none, is a prefix of the objects sent, and all of them once the writer's buffer has drained and the wire was read |
| EndToEnd.PrefixOfJoined | server/ChatServer.cc:833-847 | Any front of a stream of JSON lines is whole lines and the beginning of the next |
| Buffers.Buffer.FindEOL | muduo/muduo/net/Buffer.h:96-109 | The first newline of the readable bytes, if any |
| Buffers.Buffer.Retrieve | muduo/muduo/net/Buffer.h:113-124 | Drops exactly the first bytes of the queue |
| Buffers.Buffer.Append | muduo/muduo/net/Buffer.h:182-201 | Adds the bytes behind the queue, whatever space has to be made |
| Buffers.Buffer.MakeSpace | muduo/muduo/net/Buffer.h:390-409 | Makes room without touching the queue, and grows only if moving down does not do; its assertion holds |
| Buffers.Buffer.Prepend | muduo/muduo/net/Buffer.h:354-360 | Adds the bytes in front of the queue |
| Buffers.Buffer.Shrink | muduo/muduo/net/Buffer.h:362-369 | Keeps the queue and leaves the reserve writable |
| Buffers.Buffer.Swap | muduo/muduo/net/Buffer.h:61-66 | Exchanges two queues |
| Buffers.Buffer.ReadFd | muduo/muduo/net/Buffer.cc:25-57 | However much arrives, and spilled or not, it lands behind the queue; an error changes nothing |
| Buffers.Buffer.ReadInt | muduo/muduo/net/Buffer.h:254-284 | Reads and drops the integer at the front |
| Buffers.IntegerRoundTrip | muduo/muduo/net/Buffer.h:224-323 | A signed integer that fits its width is read back from the bytes it was written as |
| Buffers.MostSignificantFirst | muduo/muduo/net/Buffer.h:224-323 | Bytes are read in network order: a front weighs 256 to the number of the bytes behind it |
| Buffers.IntegersAreQueued | muduo/muduo/net/Buffer.h:224-323 | And is, with whatever is queued behind it |
| TcpConnections.StepKeepsInv | muduo/muduo/net/TcpConnection.cc:139-421 | Until close, write interest is on exactly if bytes wait; a half-closed connection has none waiting; a shutdown asked for is done, waiting for the buffer to drain, queued, or about to be |
| TcpConnections.StateLaw | muduo/muduo/net/TcpConnection.cc:194-345 | Exactly which events change the state of a connection, and to what, whatever is buffered; and reading is on exactly while it is open |
| TcpConnections.MessageLaw | muduo/muduo/net/TcpConnection.cc:139-192 | A message is written at once if nothing waits, what the kernel leaves of it is buffered, and behind waiting bytes it is buffered as a whole |
| TcpConnections.WritableLaw | muduo/muduo/net/TcpConnection.cc:368-406 | On writability the front of the buffer goes to the wire, as much as the kernel takes; no other event but a message touches wire or buffer |
| TcpConnections.HalfClosesIff | muduo/muduo/net/TcpConnection.cc:194-213 | Exactly which events half-close an open connection |
| TcpConnections.ForceCloseCloses | muduo/muduo/net/TcpConnection.cc:239-269 | When its functor runs, a forced close closes the connection, whatever is buffered, and leaves buffer and wire as they are |
| TcpConnections.ForcedIsClosed | muduo/muduo/net/TcpConnection.cc:239-269 | In every run a connection whose forced close has run is closed ever after |
| TcpConnections.ForceCloseIsComing | muduo/muduo/net/TcpConnection.cc:239-269 | In every state after forceClose() the connection is closed, or the functor that closes it is queued or about to be |
| TcpConnections.ClosedForGood | muduo/muduo/net/TcpConnection.cc:408-421 | In every run a closed connection stays closed, neither reads nor writes, and its wire and buffer do not change |
| TcpConnections.StepConserves | muduo/muduo/net/TcpConnection.cc:139-192 | However much the kernel takes of it, no step loses, doubles or moves a byte |
| TcpConnections.OutputIsConserved | muduo/muduo/net/TcpConnection.cc:139-213 | In every run without EPIPE or ECONNRESET the wire and then the buffer hold all messages accepted, in order; when half-closed, the wire holds them all |
| TcpConnections.WireIsFinal | muduo/muduo/net/TcpConnection.cc:205-213 | Nothing is put on the wire after half-close or close |
| TcpConnections.HalfClosesOverQueueIff | muduo/muduo/net/TcpConnection.cc:92-213 | A step half-closes an open connection over queued messages if and only if there are some and it is the loop thread's shutdown with an empty buffer, a write that drains the buffer after a shutdown, or a queued shutdown with an empty buffer and overlapping sends behind it |
| TcpConnections.StepLoses | muduo/muduo/net/TcpConnection.cc:92-213 | While no write fails for good a step loses exactly the queue if it is such a step, exactly the message a send queues after the half-close, and nothing otherwise, and keeps the order unless the loop thread sends past the queue |
| TcpConnections.SentSurvivesIffNoneLost | muduo/muduo/net/TcpConnection.cc:92-213 | In every run without EPIPE, ECONNRESET or close, with the calls of other threads overlapping in any way, all that send() queued or took on the loop thread is on the wire, buffered or still to be sent if and only if there was no such step and no such late message; and in order, if the loop thread never sent past the queue |
| TcpConnections.ShutdownOvertakesQueuedSend | muduo/muduo/net/TcpConnection.cc:92-213 | A run in which a shutdown on the loop thread loses a message sent before it |
| TcpConnections.SendComesTooLate | muduo/muduo/net/TcpConnection.cc:92-213 | A run in which the loop thread shuts down between the check of another thread's send() and its queueing, and the message is lost |
| TcpConnections.OverlappingShutdownOvertakesSend | muduo/muduo/net/TcpConnection.cc:92-213 | A run in which a shutdown() of another thread that overlaps a send() is queued first, and the message is lost |
| TcpConnections.DrainOvertakesQueuedSend | muduo/muduo/net/TcpConnection.cc:368-406 | A run in which the thread that sent a message then shuts down, and the message is lost as the buffer drains in between |
| TcpConnections.DestroyedIsQuietIffNotDisconnecting | muduo/muduo/net/TcpConnection.cc:334-345 | connectDestroyed leaves a channel without interest, as removal asserts, if and only if the connection is not disconnecting |
| TcpConnections.DestroyedWhileDisconnecting | muduo/muduo/net/TcpConnection.cc:334-345 | A run in which connectDestroyed finds the connection disconnecting, and its channel reading |
| TcpConnections.TcpConnection.SendInLoop | muduo/muduo/net/TcpConnection.cc:139-192 | The method on the real buffer and socket does what the step says; its assertion holds |
| TcpConnections.TcpConnection.HandleWrite | muduo/muduo/net/TcpConnection.cc:368-406 | Writes what the kernel takes, and half-closes a disconnecting connection once drained |
| TcpConnections.TcpConnection.RunFunctor | muduo/muduo/net/TcpConnection.cc:194-269 | A queued send, shutdown or forced close runs as the step says |
| TcpConnections.TcpConnection.QueueInLoop | muduo/muduo/net/TcpConnection.cc:98-106 | A call of another thread that has passed its check queues its functor, whatever happened in between |
| EventLoops.NothingStrandedIffCoveredAtEntry | muduo/muduo/net/EventLoop.cc:103-171 | In no interleaving does the loop thread block on a pending functor nobody will wake it for, if and only if loop() was entered with nothing pending or a wakeup on its way |
| EventLoops.NextIsAttentive | muduo/muduo/net/EventLoop.cc:103-269 | Every step of every thread keeps that |
| EventLoops.FunctorsRunOnceInOrder | muduo/muduo/net/EventLoop.cc:160-269 | Executed, running and pending functors are, in this order, those that were pushed |
| EventLoops.NothingButTheHanded | muduo/muduo/net/EventLoop.cc:160-269 | Executed, running and pending functors are exactly those that the threads queued in the run, each once and in order |
| EventLoops.QuitIsWhatWasAsked | muduo/muduo/net/EventLoop.cc:103-146 | In every run quit_ is set if and only if quit() was called since loop() was last entered |
| EventLoops.QueuedBeforeLoopIsStranded | muduo/muduo/net/EventLoop.cc:160-171 | The loop's own thread can strand a functor before loop(); any other thread cannot |
| EventLoops.QuitIsNoticed | muduo/muduo/net/EventLoop.cc:136-146 | Once quit_ is set the loop thread does not stay in poll |
| EventLoops.EventLoop.DoPendingFunctors | muduo/muduo/net/EventLoop.cc:254-269 | Calls everything pending once, in order; what the calls queue waits for the next round, which is sure to come |
| EventLoops.EventLoop.LoopOnce | muduo/muduo/net/EventLoop.cc:111-130 | One turn calls what was pending and what its handlers queued, in this order |
| TimerQueues.NextKeepsInv | muduo/muduo/net/TimerQueue.cc:132-259 | Every operation keeps the two sets over the same timers, every timer of the heap in exactly one place, and the timerfd in time |
| TimerQueues.EveryRunIsWatched | muduo/muduo/net/TimerQueue.cc:41-81 | In every run both sets have the same timers and size, and between events a queue that is not empty has a timerfd fired, or armed no later than the earliest timer up to the 100 microsecond clamp |
| TimerQueues.ExpiredAreExactlyTheDue | muduo/muduo/net/TimerQueue.cc:183-202 | getExpired takes exactly the timers due at or before now, in order |
| TimerQueues.BatchIsSettled | muduo/muduo/net/TimerQueue.cc:204-233 | An expired timer is rescheduled one interval from now if it repeats and was not cancelled meanwhile, else freed; all others are untouched |
| TimerQueues.BatchWithoutCancels | muduo/muduo/net/TimerQueue.cc:163-233 | In a batch whose callbacks cancel nothing, a due timer is back one interval later if it repeats and gone if not, whatever was cancelled before, and a timer not due waits as it did |
| TimerQueues.CalledWhenDue | muduo/muduo/net/TimerQueue.cc:109-202 | A new timer, once added, is in the first batch taken at or after its time and in none taken before |
| TimerQueues.AddArms | muduo/muduo/net/TimerQueue.cc:132-141 | Adding sets the timerfd if and only if the timer is earlier than all others, to its time or 100 microseconds from now |
| TimerQueues.EndArms | muduo/muduo/net/TimerQueue.cc:225-233 | Behind a batch the timerfd is set in the same way for the earliest timer there is |
| TimerQueues.CancelDoomsIffAdded | muduo/muduo/net/TimerQueue.cc:143-161 | Cancelling rules out any later scheduling of the timer if and only if it had been added |
| TimerQueues.DoomedForGood | muduo/muduo/net/TimerQueue.cc:143-233 | In no run is a cancelled timer scheduled again, even if its address is reused |
| TimerQueues.OthersUntouched | muduo/muduo/net/TimerQueue.cc:143-161 | Cancelling changes nothing for any other timer, not even one at the address of the cancelled id |
| TimerQueues.FreedForGood | muduo/muduo/net/TimerQueue.cc:153-223 | A freed timer never comes back, so none is freed twice |
| TimerQueues.TimerQueue.GetExpired | muduo/muduo/net/TimerQueue.cc:183-202 | The method on both sets takes the due timers; each is in the second set |
| TimerQueues.TimerQueue.CancelInLoop | muduo/muduo/net/TimerQueue.cc:143-161 | The method erases from both sets, its assertion holds, or notes the id while callbacks run |
| TimerQueues.TimerQueue.AddTimerInLoop | muduo/muduo/net/TimerQueue.cc:132-141 | Inserts into both sets, its assertions hold, and arms the timerfd if the timer is the earliest |
| TimerQueues.TimerQueue.HandleRead | muduo/muduo/net/TimerQueue.cc:163-181 | Whatever adds and cancels the callbacks do, the batch is taken, called and settled |
| Pollers.BothWatchWhatIsWanted | muduo/muduo/net/poller/PollPoller.cc:75-140 | After any legal sequence of updates and removals both pollers watch exactly the descriptors with non-empty interest, for exactly those events |
| Pollers.PollRemoveIsValid | muduo/muduo/net/poller/PollPoller.cc:112-140 | Swap-remove keeps every other entry and the inverse of index and slot |
| Pollers.EPollUpdateRefines | muduo/muduo/net/poller/EPollPoller.cc:107-149 | No epoll_ctl fails, and the kernel's set follows the interest |
| Pollers.ParkedIffUpdatedBefore | muduo/muduo/net/poller/PollPoller.cc:75-122 | An entry is ignored, as removal asserts, if and only if its channel was registered before and wants nothing now |
| Pollers.EmptyUpdateTwice | muduo/muduo/net/poller/EPollPoller.cc:113-149 | epoll watches an empty interest again, for nothing, on every second update |
| Pollers.PollPoller.UpdateChannel | muduo/muduo/net/poller/PollPoller.cc:75-110 | The method on array and channels; its assertions hold |
| Pollers.PollPoller.RemoveChannel | muduo/muduo/net/poller/PollPoller.cc:112-140 | The method with its swap; the removed channel keeps an index that makes it unusable |
| Pollers.PollPoller.FillActiveChannels | muduo/muduo/net/poller/PollPoller.cc:55-73 | Reports exactly the ready channels, in order, when given their number, and a prefix of them otherwise |
| Pollers.ReadyLaw | muduo/muduo/net/poller/PollPoller.cc:55-73 | What poll marked is reported with its descriptor and events, in the order of the array, and nothing else |
| Pollers.EPollPoller.UpdateChannel | muduo/muduo/net/poller/EPollPoller.cc:107-149 | The three index states and the kernel's set move together |
| Pollers.EPollPoller.RemoveChannel | muduo/muduo/net/poller/EPollPoller.cc:151-170 | A removed channel is as good as new |
| AsyncLoggings.NextKeepsInv | muduo/muduo/base/AsyncLogging.cc:34-134 | A missing spare means a queued buffer, so in every interleaving all assertions of the thread hold and both its spares can be replaced |
| AsyncLoggings.EveryLineIsKeptOnce | muduo/muduo/base/AsyncLogging.cc:34-134 | In every run without an oversized batch each line shorter than a buffer is, once and in lock order, in the file, the batch, the queue or the current buffer |
| AsyncLoggings.EveryLineIsAccountedFor | muduo/muduo/base/AsyncLogging.cc:34-134 | In every run, oversized batches or not, the buffers taken and the memory hold every line shorter than a buffer in lock order, the file and the batch hold the buffers not dropped, and the notices count the dropped ones |
| AsyncLoggings.StoppedFileIsCompleteIffNothingSinceTake | muduo/muduo/base/AsyncLogging.cc:69-134 | After the thread has ended, and no batch was oversized, the file is complete if and only if no kept line was appended since it last took the buffers |
| AsyncLoggings.LastLineIsLost | muduo/muduo/base/AsyncLogging.cc:69-134 | A run in which a line stays in memory |
| AsyncLoggings.AsyncLogging.Append | muduo/muduo/base/AsyncLogging.cc:34-56 | The method moves the buffers as the step says |
| AsyncLoggings.AsyncLogging.WriteBuffers | muduo/muduo/base/AsyncLogging.cc:90-132 | Writes the batch, or its first two buffers and a notice, and hands back two empty spares; no pop finds the batch empty |
| AsyncLoggings.AsyncLogging.ThreadFunc | muduo/muduo/base/AsyncLogging.cc:58-135 | The loop writes every kept line once and in order, unless it writes a notice |
| Dates.DateOfNumber | muduo/muduo/base/Date.cc:21-43 | Every date from 1 March -4800 on is found again from its Julian day number |
| Dates.NumberOfDate | muduo/muduo/base/Date.cc:21-43 | Every day number from there on belongs to a real date, whose number it is |
| Dates.NextDayIsNextNumber | muduo/muduo/base/Date.cc:21-28 | The next day of an independently defined Gregorian calendar has the next number |
| Dates.RoundTripIffInEra | muduo/muduo/base/Date.cc:21-43 | With truncating division the functions are inverse if and only if the date is not before 1 March -4800 |
| Dates.IsDateIffFromFirstDay | muduo/muduo/base/Date.cc:30-43 | getYearMonthDay gives a real date if and only if the number is not before that day's |
| Dates.DateOfFitsInt | muduo/muduo/base/Date.cc:30-43 | Up to the year 1465102 no intermediate result leaves 32 bits |
| TimeZones.BreakTime | muduo/muduo/base/TimeZone.cc:285-312 | With the borrow for negative remainders, the fields of the floor day and second of day |
| TimeZones.FromUtcOfBroken | muduo/muduo/base/TimeZone.cc:293-312 | Fields are in range and fromUtcTime gives the second back, negative ones too |
| TimeZones.FieldsLaw | muduo/muduo/base/TimeZone.cc:285-312 | The fields of a second are the calendar day that many days from 1 January 1970, and hour, minute and second in range that sum up to the second of the day |
| TimeZones.BrokenOfFromUtc | muduo/muduo/base/TimeZone.cc:498-504 | And BreakTime gives the fields back |
| TimeZones.ZoneFile.Load | muduo/muduo/base/TimeZone.cc:206-222 | The vectors are filled from the arrays of the file; an index without a type fails the load |
| TimeZones.LocalTimeLaw | muduo/muduo/base/TimeZone.cc:318-352 | Local time is shown with the offset of the last transition not after the second, and before the first, or in a zone without any, with that of the first type |
| TimeZones.FromLocalTimeAtTheEnds | muduo/muduo/base/TimeZone.cc:358-380 | A local time before the first transition, or in a zone without any, is read with the first type's offset, and one behind the last with the last's |
| TimeZones.SearchFinds | muduo/muduo/base/TimeZone.cc:358-430 | Where the search for a second's local time ends up, in all cases of gap, overlap, first and last transition |
| TimeZones.RecoveredIffNotLost | muduo/muduo/base/TimeZone.cc:461-491 | For transitions spaced further apart than offsets differ, a second is recovered by some flag if and only if the first or last transition does not repeat its hour |
| TimeZones.FlagsTellRepeatedApart | muduo/muduo/base/TimeZone.cc:358-430 | Both flags recover a local time shown once; of one shown twice each flag recovers its own |
| TimeZones.SkippedLocalTime | muduo/muduo/base/TimeZone.cc:392-404 | A skipped local time belongs to no second, and the flag chooses the clock it is read on |

## Left out

- Storage (`server/ChatStorage.cc`) and the handlers that only store, list or look up: users, private and room messages, history.  Their behaviour is mostly SQL.
- Metrics, logging, option parsing, the command-line clients but for their loop over lines, the browser and Qt clients, the node gateway, protobuf and HTTP.
- The words of the JSON faults, which a client gets behind "invalid json: "; the model tells the faults apart.
- The sentence "connected" a session is greeted with, and timestamps in requests.
- Callbacks of `TcpConnection` (connection, message, write-complete, high-water mark), the input side, `startRead`, `stopRead` and `forceCloseWithDelay`.
- `shutdown()` and `forceClose()` look at `state_` and set it in one step, as the comment in the source asks for ("use compare and swap"); `shutdown()` is documented as not thread safe.  What follows, the queueing, is a step of its own, as it is in `send()`.
- A connection outlives the functors that were given its address.
- The JSON parsers of the Qt client and of browsers: that a peer takes a line as some fields is said with `common/Json.cc`.  Of the gateway, only that its loop over lines has a limit of its own.
- `isInLoopThread` is a parameter; that a callback runs on the thread it should is assumed, as is atomicity of the plain flags the source marks atomic.
- The depth of the parser's recursion: the source's stack is finite, the model's is not.
- Timer intervals are whole microseconds; the source converts a `double`.
- Two timers at the same address at once cannot happen, as the allocator is assumed to return free addresses; allocation never fails.
- `revents` of a channel and what `Channel::handleEvent` calls for it.
- std::upper_bound is a search from the front, which finds the same position in a range in ascending order.
- The file format around the arrays of a time zone file, version 1 files, and the rule string behind the last transition, which the source does not read either.
- Log file rolling and flushing.
