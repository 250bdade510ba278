/** The output side of a connection and its life cycle (muduo/net/TcpConnection.cc).

    The socket is an input: every write(2) comes with the kernel's answer.  What the connection is
    asked from other threads waits in the loop's queue of functors, of which only those of this
    connection are kept here.  send(), shutdown() and forceClose() take no lock: between the look at the
    state and the queueing of the functor anything can happen, another such call included. */
module TcpConnections {
  import opened Buffers

  datatype State = Connecting | Connected | Disconnecting | Disconnected

  // What write(2) returns: a count, EWOULDBLOCK, one of EPIPE and ECONNRESET, or another error.
  datatype Answer = Wrote(n: nat) | WouldBlock | PeerGone | OtherError

  datatype Task = SendTask(message: string) | ShutdownTask | ForceCloseTask

  /** `reading` and `writing` are the channel's interest bits, `wire` what the kernel has accepted,
      `halfClosed` whether shutdown(SHUT_WR) was called on the socket; `passed` are the tasks of other
      threads that have looked at (and set) the state, and have yet to queue them. */
  datatype Conn = Conn(state: State, reading: bool, writing: bool, output: string, wire: string,
                       halfClosed: bool, tasks: seq<Task>, passed: multiset<Task>)

  datatype Event =
    | Establish
    | Send(message: string, inLoop: bool, answer: Answer)
    | Shutdown(inLoop: bool)
    | ForceClose(inLoop: bool)
    | Enqueue(task: Task)
    | RunTask(answer: Answer)
    | Writable(answer: Answer)
    | PeerClosed
    | Destroy

  const Created := Conn(Connecting, false, false, "", "", false, [], multiset{})

  // ---------------------------------------------------------------------------------------------
  // What each function of the source does
  // ---------------------------------------------------------------------------------------------

  // A write on a socket whose write side was shut down fails with EPIPE.
  predicate Possible(c: Conn, data: string, answer: Answer) {
    && (answer.Wrote? ==> answer.n <= |data|)
    && (c.halfClosed ==> answer.PeerGone?)
  }

  predicate WritesDirectly(c: Conn) { !c.writing && c.output == "" }

  function AfterSendInLoop(c: Conn, message: string, answer: Answer): Conn
    requires Possible(c, message, answer)
  {
    if c.state.Disconnected? then c
    else if !WritesDirectly(c) then Queue(c, message)
    else match answer
         case Wrote(n) => Queue(c.(wire := c.wire + message[..n]), message[n..])
         case PeerGone => c
         case _ => Queue(c, message)
  }

  function Queue(c: Conn, rest: string): Conn {
    if rest == "" then c else c.(output := c.output + rest, writing := true)
  }

  function AfterShutdown(c: Conn): Conn { if c.writing then c else c.(halfClosed := true) }

  function AfterWrite(c: Conn, answer: Answer): Conn
    requires Possible(c, c.output, answer)
  {
    if !c.writing || !answer.Wrote? || answer.n == 0 then c
    else
      var sent := c.(wire := c.wire + c.output[..answer.n], output := c.output[answer.n..]);
      if sent.output != "" then sent
      else
        var idle := sent.(writing := false);
        if c.state.Disconnecting? then AfterShutdown(idle) else idle
  }

  function AfterClose(c: Conn): Conn
    requires c.state.Connected? || c.state.Disconnecting?
  {
    c.(state := Disconnected, reading := false, writing := false)
  }

  function AfterForceClose(c: Conn): Conn {
    if c.state.Connected? || c.state.Disconnecting? then AfterClose(c) else c
  }

  function AfterDestroy(c: Conn): Conn {
    if c.state.Connected? then AfterClose(c) else c
  }

  // ---------------------------------------------------------------------------------------------
  // One event after the other
  // ---------------------------------------------------------------------------------------------

  // What the loop and the kernel guarantee: end-of-file comes only while the channel is watched for
  // reading, connectEstablished is called once, and the kernel's answer is possible where it is used.
  predicate Legal(c: Conn, e: Event) {
    match e
    case Establish => c.state.Connecting?
    case Send(message, inLoop, answer) => c.state.Connected? && inLoop ==> Possible(c, message, answer)
    case Enqueue(task) => task in c.passed
    case RunTask(answer) => c.tasks != [] && (c.tasks[0].SendTask? ==> Possible(c, c.tasks[0].message, answer))
    case Writable(answer) => Possible(c, c.output, answer)
    case PeerClosed => c.reading
    case _ => true
  }

  function Perform(c: Conn, task: Task, answer: Answer): Conn
    requires task.SendTask? ==> Possible(c, task.message, answer)
  {
    match task
    case SendTask(message) => AfterSendInLoop(c, message, answer)
    case ShutdownTask => AfterShutdown(c)
    case ForceCloseTask => AfterForceClose(c)
  }

  ghost function Step(c: Conn, e: Event): Conn
    requires Legal(c, e) && Inv(c)
  {
    match e
    case Establish => c.(state := Connected, reading := true)
    case Send(message, inLoop, answer) =>
      if !c.state.Connected? then c
      else if inLoop then AfterSendInLoop(c, message, answer)
      else c.(passed := c.passed + multiset{SendTask(message)})
    case Shutdown(inLoop) =>
      if !c.state.Connected? then c
      else
        var d := c.(state := Disconnecting);
        if inLoop then AfterShutdown(d) else d.(passed := d.passed + multiset{ShutdownTask})
    case ForceClose(inLoop) =>
      if !Open(c) then c
      else
        var d := c.(state := Disconnecting);
        if inLoop then d.(tasks := d.tasks + [ForceCloseTask]) else d.(passed := d.passed + multiset{ForceCloseTask})
    case Enqueue(task) => c.(passed := c.passed - multiset{task}, tasks := c.tasks + [task])
    case RunTask(answer) => Perform(c.(tasks := c.tasks[1..]), c.tasks[0], answer)
    case Writable(answer) => AfterWrite(c, answer)
    case PeerClosed => AfterClose(c)
    case Destroy => AfterDestroy(c)
  }

  // ---------------------------------------------------------------------------------------------
  // What every event keeps
  // ---------------------------------------------------------------------------------------------

  predicate Open(c: Conn) { c.state.Connected? || c.state.Disconnecting? }

  // Queued, or about to be.
  predicate Coming(c: Conn, task: Task) { task in c.tasks || task in c.passed }

  /** Until it is closed, a connection waits for writability exactly when it has bytes to write; it is
      half-closed only when it has none; and a shutdown that was asked for is done, or waits for the
      buffer to drain, or is on its way to the queue or in it. */
  ghost predicate Inv(c: Conn) {
    && (c.reading <==> Open(c))
    && (Open(c) ==> (c.writing <==> c.output != ""))
    && (!Open(c) ==> !c.writing)
    && (c.halfClosed ==> c.state.Disconnecting? || c.state.Disconnected?)
    && (Open(c) && c.halfClosed ==> c.output == "")
    && (c.state.Connecting? ==> c.tasks == [] && c.passed == multiset{} && c.output == "" && c.wire == "")
    && (c.state.Disconnecting? && c.output == "" ==>
          c.halfClosed || Coming(c, ShutdownTask) || Coming(c, ForceCloseTask))
    && (c.state.Connected? ==> OnlySends(c))
  }

  ghost predicate OnlySends(c: Conn) { forall t | Coming(c, t) :: t.SendTask? }

  lemma StepKeepsInv(c: Conn, e: Event)
    requires Legal(c, e) && Inv(c)
    ensures Inv(Step(c, e))
  {
    hide *;
    match e
    case Send(_, _, _) => SendKeepsInv(c, e);
    case Enqueue(task) => EnqueueKeepsInv(c, task);
    case RunTask(answer) => RunTaskKeepsInv(c, answer);
    case Writable(answer) => WriteKeepsInv(c, answer);
    case _ => CallKeepsInv(c, e);
  }

  lemma SendKeepsInv(c: Conn, e: Event)
    requires Legal(c, e) && Inv(c) && e.Send?
    ensures Inv(Step(c, e))
  {
  }

  lemma EnqueueKeepsInv(c: Conn, task: Task)
    requires Legal(c, Enqueue(task)) && Inv(c)
    ensures Inv(Step(c, Enqueue(task)))
  {
    assert forall t | Coming(Step(c, Enqueue(task)), t) :: Coming(c, t);
    assert forall t | Coming(c, t) :: Coming(Step(c, Enqueue(task)), t);
  }

  lemma WriteKeepsInv(c: Conn, answer: Answer)
    requires Legal(c, Writable(answer)) && Inv(c)
    ensures Inv(Step(c, Writable(answer)))
  {
  }

  lemma CallKeepsInv(c: Conn, e: Event)
    requires Legal(c, e) && Inv(c) && (e.Establish? || e.Shutdown? || e.ForceClose? || e.PeerClosed? || e.Destroy?)
    ensures Inv(Step(c, e))
  {
  }

  lemma RunTaskKeepsInv(c: Conn, answer: Answer)
    requires Legal(c, RunTask(answer)) && Inv(c)
    ensures Inv(Step(c, RunTask(answer)))
  {
    assert c.tasks == [c.tasks[0]] + c.tasks[1..];
  }

  // The part of the message a step is given that the connection takes charge of.
  function KeptBySend(c: Conn, message: string, answer: Answer): string {
    if c.state.Disconnected? || (WritesDirectly(c) && answer.PeerGone?) then "" else message
  }

  function Kept(c: Conn, e: Event): string
    requires Legal(c, e)
  {
    match e
    case Send(message, inLoop, answer) => if c.state.Connected? && inLoop then KeptBySend(c, message, answer) else ""
    case RunTask(answer) => if c.tasks[0].SendTask? then KeptBySend(c, c.tasks[0].message, answer) else ""
    case _ => ""
  }

  /** However much or little the kernel takes of it, no byte is lost, doubled or moved. */
  lemma StepConserves(c: Conn, e: Event)
    requires Legal(c, e) && Inv(c)
    ensures var d := Step(c, e);
            d.wire + d.output == c.wire + c.output + Kept(c, e) && c.wire <= d.wire
  {
    hide Inv, AfterSendInLoop, AfterWrite;
    AddNothing(c.wire + c.output);
    match e
    case Send(message, inLoop, answer) =>
      if c.state.Connected? && inLoop { SendConserves(c, message, answer); }
    case RunTask(answer) =>
      if c.tasks[0].SendTask? { SendConserves(c.(tasks := c.tasks[1..]), c.tasks[0].message, answer); }
    case Writable(answer) => WriteConserves(c, answer);
    case _ =>
  }

  lemma AddNothing(s: string)
    ensures s + "" == s
  {
  }

  lemma WriteConserves(c: Conn, answer: Answer)
    requires Possible(c, c.output, answer)
    ensures var d := AfterWrite(c, answer); d.wire + d.output == c.wire + c.output && c.wire <= d.wire
  {
    if c.writing && answer.Wrote? { assert c.output == c.output[..answer.n] + c.output[answer.n..]; }
  }

  lemma SplitMessage(wire: string, message: string, n: nat)
    requires n <= |message|
    ensures wire + message[..n] + message[n..] == wire + message && wire + message[..n] + "" == wire + message[..n]
  {
    assert message == message[..n] + message[n..];
  }

  lemma SendConserves(c: Conn, message: string, answer: Answer)
    requires Possible(c, message, answer)
    ensures var d := AfterSendInLoop(c, message, answer);
            d.wire + d.output == c.wire + c.output + KeptBySend(c, message, answer) && c.wire <= d.wire
  {
    AddNothing(c.wire + c.output);
    if answer.Wrote? { SplitMessage(c.wire, message, answer.n); }
  }

  /** Once a connection is half-closed or closed, the wire is complete. */
  lemma WireIsFinal(c: Conn, e: Event)
    requires Legal(c, e) && Inv(c) && (c.halfClosed || c.state.Disconnected?)
    ensures Step(c, e).wire == c.wire && (Step(c, e).halfClosed || Step(c, e).state.Disconnected?)
  {
  }

  // ---------------------------------------------------------------------------------------------
  // Whole runs
  // ---------------------------------------------------------------------------------------------

  ghost predicate LegalRun(c: Conn, events: seq<Event>)
    requires Inv(c)
    decreases |events|
  {
    events == [] || (Legal(c, events[0]) && Inv(Step(c, events[0])) && LegalRun(Step(c, events[0]), events[1..]))
  }

  lemma CreatedInv()
    ensures Inv(Created)
  {
  }

  ghost function Run(c: Conn, events: seq<Event>): Conn
    requires Inv(c) && LegalRun(c, events)
    decreases |events|
  {
    if events == [] then c else Run(Step(c, events[0]), events[1..])
  }

  // Everything sendInLoop was given and neither the closed state nor a vanished peer made it drop.
  ghost function AllKept(c: Conn, events: seq<Event>): string
    requires Inv(c) && LegalRun(c, events)
    decreases |events|
  {
    if events == [] then "" else Kept(c, events[0]) + AllKept(Step(c, events[0]), events[1..])
  }

  predicate FailsForGood(e: Event) {
    match e
    case Send(_, _, answer) => answer.PeerGone?
    case RunTask(answer) => answer.PeerGone?
    case Writable(answer) => answer.PeerGone?
    case _ => false
  }

  function Accepted(c: Conn, e: Event): string
    requires Legal(c, e)
  {
    if e.Send? && e.inLoop && c.state.Connected? then e.message
    else if e.RunTask? && c.tasks[0].SendTask? && !c.state.Disconnected? then c.tasks[0].message
    else ""
  }

  // Everything sendInLoop was given before the connection was closed.
  ghost function AllAccepted(c: Conn, events: seq<Event>): string
    requires Inv(c) && LegalRun(c, events)
    decreases |events|
  {
    if events == [] then "" else Accepted(c, events[0]) + AllAccepted(Step(c, events[0]), events[1..])
  }

  lemma {:induction false} RunConserves(c: Conn, events: seq<Event>)
    requires Inv(c) && LegalRun(c, events)
    ensures var d := Run(c, events);
            Inv(d) && d.wire + d.output == c.wire + c.output + AllKept(c, events) && c.wire <= d.wire
    decreases |events|
  {
    hide Step, Legal, Kept, Inv;
    if events != [] {
      var c' := Step(c, events[0]);
      StepConserves(c, events[0]);
      RunConserves(c', events[1..]);
      assert c.wire + c.output + Kept(c, events[0]) + AllKept(c', events[1..])
             == c.wire + c.output + (Kept(c, events[0]) + AllKept(c', events[1..]));
    }
  }

  lemma {:induction false} NothingDroppedWithoutFault(c: Conn, events: seq<Event>)
    requires Inv(c) && LegalRun(c, events) && forall e | e in events :: !FailsForGood(e)
    ensures AllKept(c, events) == AllAccepted(c, events)
    decreases |events|
  {
    if events != [] {
      var e := events[0];
      assert !FailsForGood(e) && Legal(c, e);
      assert Kept(c, e) == Accepted(c, e);
      hide Step, Inv, Kept, Accepted;
      NothingDroppedWithoutFault(Step(c, e), events[1..]);
    }
  }

  /** For every pattern of short, blocked or failed writes: as long as no write failed with EPIPE or
      ECONNRESET, the bytes on the wire and then those buffered are all messages accepted, in order;
      and if the connection was half-closed before it was closed, all of them are on the wire. */
  lemma OutputIsConserved(events: seq<Event>)
    requires LegalRun(Created, events) && forall e | e in events :: !FailsForGood(e)
    ensures var d := Run(Created, events);
            && d.wire + d.output == AllAccepted(Created, events)
            && (Open(d) ==> (d.writing <==> d.output != ""))
            && (Open(d) && d.halfClosed ==> d.wire == AllAccepted(Created, events))
  {
    RunConserves(Created, events);
    NothingDroppedWithoutFault(Created, events);
    hide Run, AllKept, AllAccepted, LegalRun;
    assert Created.wire + Created.output + AllKept(Created, events) == AllKept(Created, events);
  }

  // ---------------------------------------------------------------------------------------------
  // States, bytes and half-closing, event by event
  // ---------------------------------------------------------------------------------------------

  /** The state of a connection changes in these cases and no others, whatever waits in its buffer. */
  lemma StateLaw(c: Conn, e: Event)
    requires Legal(c, e) && Inv(c)
    ensures Step(c, e).state ==
            if e.Establish? then Connected
            else if e.PeerClosed? || (e.Destroy? && c.state.Connected?) then Disconnected
            else if e.RunTask? && c.tasks[0].ForceCloseTask? && (c.state.Connected? || c.state.Disconnecting?) then Disconnected
            else if (e.Shutdown? && c.state.Connected?) || (e.ForceClose? && (c.state.Connected? || c.state.Disconnecting?))
            then Disconnecting
            else c.state
    ensures var d := Step(c, e);
            && (d.reading <==> d.state.Connected? || d.state.Disconnecting?)
            && (d.writing ==> d.state.Connected? || d.state.Disconnecting?)
  {
    hide OnlySends, Coming, Possible, AfterSendInLoop, AfterWrite;
    StepKeepsInv(c, e);
    WritingKeepsQueue(c, e);
  }

  // Writing, directly or from the buffer, changes neither the state nor what is queued.
  lemma WritingKeepsQueue(c: Conn, e: Event)
    requires Legal(c, e)
    ensures e.Send? && e.inLoop && c.state.Connected? ==>
              var d := AfterSendInLoop(c, e.message, e.answer);
              d.state == c.state && d.tasks == c.tasks && d.passed == c.passed
    ensures e.RunTask? && c.tasks[0].SendTask? ==>
              var d := AfterSendInLoop(c.(tasks := c.tasks[1..]), c.tasks[0].message, e.answer);
              d.state == c.state && d.tasks == c.tasks[1..] && d.passed == c.passed
    ensures e.Writable? ==>
              var d := AfterWrite(c, e.answer); d.state == c.state && d.tasks == c.tasks && d.passed == c.passed
  {
  }

  /** What is queued, and what is about to be: another thread's call passes its check by the state, and queues
      its task later; the loop takes the first. */
  lemma QueueLaw(c: Conn, e: Event)
    requires Legal(c, e) && Inv(c)
    ensures var d := Step(c, e);
            && d.passed == (if e.Send? && !e.inLoop && c.state.Connected? then c.passed + multiset{SendTask(e.message)}
                            else if e.Shutdown? && !e.inLoop && c.state.Connected? then c.passed + multiset{ShutdownTask}
                            else if e.ForceClose? && !e.inLoop && Open(c) then c.passed + multiset{ForceCloseTask}
                            else if e.Enqueue? then c.passed - multiset{e.task} else c.passed)
            && d.tasks == (if e.ForceClose? && e.inLoop && Open(c) then c.tasks + [ForceCloseTask]
                           else if e.Enqueue? then c.tasks + [e.task]
                           else if e.RunTask? then c.tasks[1..] else c.tasks)
  {
    hide Inv, Possible, AfterSendInLoop, AfterWrite;
    WritingKeepsQueue(c, e);
  }

  // The message an event hands to sendInLoop on a connection that is not closed, if it does.
  predicate HandsOver(c: Conn, e: Event, message: string) {
    || (e.Send? && e.inLoop && c.state.Connected? && message == e.message)
    || (e.RunTask? && c.tasks != [] && c.tasks[0] == SendTask(message) && Open(c))
  }

  predicate HandsOverSomething(c: Conn, e: Event) {
    (e.Send? && e.inLoop && c.state.Connected?) || (e.RunTask? && c.tasks != [] && c.tasks[0].SendTask? && Open(c))
  }

  /** A message is written at once if nothing waits, and what the kernel did not take is buffered; behind
      bytes that wait it is buffered as a whole. */
  lemma MessageLaw(c: Conn, e: Event, message: string)
    requires Legal(c, e) && Inv(c) && HandsOver(c, e, message)
    ensures var d, answer := Step(c, e), e.answer;
            if c.output != "" then d.wire == c.wire && d.output == c.output + message
            else if answer.PeerGone? then d.wire == c.wire && d.output == ""
            else if answer.Wrote? then d.wire == c.wire + message[..answer.n] && d.output == message[answer.n..]
            else d.wire == c.wire && d.output == message
  {
    hide OnlySends, Coming;
  }

  /** When the socket is writable the front of the buffer goes to the wire, as much as the kernel takes; and
      nothing else touches wire or buffer. */
  lemma WritableLaw(c: Conn, e: Event)
    requires Legal(c, e) && Inv(c) && !HandsOverSomething(c, e)
    ensures var d := Step(c, e);
            if e.Writable? && e.answer.Wrote? && Open(c)
            then d.wire == c.wire + c.output[..e.answer.n] && d.output == c.output[e.answer.n..]
            else d.wire == c.wire && d.output == c.output
  {
    hide OnlySends, Coming;
    AddNothing(c.wire);
  }

  /** An open connection is half-closed by a shutdown that finds nothing buffered, on the loop thread or from
      the queue, and by the write that drains the buffer after a shutdown; never otherwise, and never undone. */
  lemma HalfClosesIff(c: Conn, e: Event)
    requires Legal(c, e) && Inv(c) && (c.state.Connected? || c.state.Disconnecting?)
    ensures Step(c, e).halfClosed <==>
            || c.halfClosed
            || (e.Shutdown? && e.inLoop && c.state.Connected? && c.output == "")
            || (e.RunTask? && c.tasks[0].ShutdownTask? && c.output == "")
            || (e.Writable? && c.state.Disconnecting? && c.output != "" && e.answer == Wrote(|c.output|))
  {
    hide OnlySends, Coming;
  }

  // ---------------------------------------------------------------------------------------------
  // Closing for good
  // ---------------------------------------------------------------------------------------------

  /** A forced close closes: when its functor runs the connection is closed, whatever is buffered; the buffer
      and the wire stay as they are. */
  lemma ForceCloseCloses(c: Conn, answer: Answer)
    requires Legal(c, RunTask(answer)) && Inv(c) && c.tasks[0].ForceCloseTask?
    ensures var d := Step(c, RunTask(answer));
            && d.state.Disconnected? && !d.reading && !d.writing && d.output == c.output && d.wire == c.wire
  {
    StateLaw(c, RunTask(answer));
    WritableLaw(c, RunTask(answer));
  }

  /** Closed is closed for good: in every run, and nothing more is written. */
  lemma {:induction false} ClosedForGood(c: Conn, events: seq<Event>)
    requires Inv(c) && LegalRun(c, events) && c.state.Disconnected?
    ensures var d := Run(c, events); d.state.Disconnected? && !d.reading && !d.writing && d.wire == c.wire && d.output == c.output
    decreases |events|
  {
    if events != [] {
      StateLaw(c, events[0]);
      if HandsOverSomething(c, events[0]) { assert false; }
      WritableLaw(c, events[0]);
      hide Step, Inv;
      ClosedForGood(Step(c, events[0]), events[1..]);
    }
  }

  // Some step of the run runs the functor of a forced close.
  ghost predicate ForcedIn(c: Conn, events: seq<Event>)
    requires Inv(c) && LegalRun(c, events)
    decreases |events|
  {
    events != [] && ((events[0].RunTask? && c.tasks[0].ForceCloseTask?) || ForcedIn(Step(c, events[0]), events[1..]))
  }

  /** Once the functor of a forced close has run, on whatever connection, it is closed ever after. */
  lemma {:induction false} ForcedIsClosed(c: Conn, events: seq<Event>)
    requires Inv(c) && LegalRun(c, events) && ForcedIn(c, events)
    ensures Run(c, events).state.Disconnected?
    decreases |events|
  {
    hide Step, Inv;
    if events[0].RunTask? && c.tasks[0].ForceCloseTask? {
      ForceCloseCloses(c, events[0].answer);
      ClosedForGood(Step(c, events[0]), events[1..]);
    } else {
      ForcedIsClosed(Step(c, events[0]), events[1..]);
    }
  }

  /** forceClose() on an open connection is not forgotten: in every later state the connection is closed, or
      the functor that closes it is queued or about to be. */
  lemma {:induction false} ForceCloseIsComing(c: Conn, events: seq<Event>)
    requires Inv(c) && LegalRun(c, events) && Coming(c, ForceCloseTask)
    ensures Run(c, events).state.Disconnected? || Coming(Run(c, events), ForceCloseTask)
    decreases |events|
  {
    if events != [] {
      var e := events[0];
      var c' := Step(c, e);
      if e.RunTask? && c.tasks[0].ForceCloseTask? {
        ForceCloseCloses(c, e.answer);
        ClosedForGood(c', events[1..]);
      } else {
        StillComing(c, e, ForceCloseTask);
        hide Step, Inv, Legal;
        ForceCloseIsComing(c', events[1..]);
      }
    }
  }

  lemma StillComing(c: Conn, e: Event, task: Task)
    requires Legal(c, e) && Inv(c) && Coming(c, task) && !(e.RunTask? && c.tasks[0] == task)
    ensures Coming(Step(c, e), task)
  {
    hide Inv, Possible, AfterSendInLoop, AfterWrite;
    WritingKeepsQueue(c, e);
    match e
    case RunTask(answer) => RunKeepsOthers(c, answer, task);
    case Enqueue(_) =>
    case _ => hide Perform;
  }

  lemma RunKeepsOthers(c: Conn, answer: Answer, task: Task)
    requires Legal(c, RunTask(answer)) && Inv(c) && Coming(c, task) && c.tasks[0] != task
    ensures Coming(Step(c, RunTask(answer)), task)
  {
    hide Inv, Possible, AfterSendInLoop;
    WritingKeepsQueue(c, RunTask(answer));
    InTail(c.tasks, task);
  }

  lemma InTail(tasks: seq<Task>, task: Task)
    requires tasks != [] && tasks[0] != task
    ensures task in tasks ==> task in tasks[1..]
  {
  }

  lemma ForceCloseAsksForIt(c: Conn, inLoop: bool)
    requires Inv(c) && (c.state.Connected? || c.state.Disconnecting?)
    ensures Coming(Step(c, ForceClose(inLoop)), ForceCloseTask)
  {
    hide OnlySends;
  }

  // ---------------------------------------------------------------------------------------------
  // send() from several threads
  // ---------------------------------------------------------------------------------------------

  function Queued(tasks: seq<Task>): string {
    if tasks == [] then ""
    else (if tasks[0].SendTask? then tasks[0].message else "") + Queued(tasks[1..])
  }

  lemma Assoc(a: string, b: string, c: string)
    ensures a + (b + c) == a + b + c
  {
  }

  lemma {:induction false} QueuedAppend(tasks: seq<Task>, task: Task)
    ensures Queued(tasks + [task]) == Queued(tasks) + if task.SendTask? then task.message else ""
  {
    if tasks == [] {
      assert tasks + [task] == [task] && [task][1..] == [];
    } else {
      QueuedAppend(tasks[1..], task);
      var longer := tasks + [task];
      assert longer[0] == tasks[0] && longer[1..] == tasks[1..] + [task];
      Assoc(if tasks[0].SendTask? then tasks[0].message else "", Queued(tasks[1..]), if task.SendTask? then task.message else "");
    }
  }

  // What a call of send() adds to the bytes on their way: on another thread, by queueing them.
  function Sent(c: Conn, e: Event): string {
    if e.Send? && e.inLoop && c.state.Connected? then e.message
    else if e.Enqueue? && e.task.SendTask? then e.task.message
    else ""
  }

  // The bytes sent that are on the wire or can still get there: nothing queued can, once half-closed.
  function OnItsWay(c: Conn): string {
    c.wire + c.output + if c.halfClosed then "" else Queued(c.tasks)
  }

  // A direct write finds the peer gone although this side was not half-closed.
  predicate BreaksDown(c: Conn, e: Event) {
    && !c.halfClosed && FailsForGood(e) && WritesDirectly(c)
    && ((e.Send? && e.inLoop && c.state.Connected?) || (e.RunTask? && c.tasks != [] && c.tasks[0].SendTask?))
  }

  /** The connection is half-closed while messages wait in the queue: by a shutdown() on the loop thread
      that finds the buffer empty, by the write that drains the buffer after a shutdown(), or by a queued
      shutdown that finds the buffer empty, with messages behind it whose send() it overlapped. */
  predicate CutsOff(c: Conn, e: Event) {
    && !c.halfClosed && Queued(c.tasks) != ""
    && (|| (e.Shutdown? && e.inLoop && c.state.Connected? && c.output == "")
        || (e.Writable? && c.state.Disconnecting? && c.output != "" && e.answer == Wrote(|c.output|))
        || (e.RunTask? && c.tasks[0].ShutdownTask? && c.output == ""))
  }

  // A send() that overlapped a shutdown() queues its message only after the connection was half-closed.
  predicate ComesTooLate(c: Conn, e: Event) { c.halfClosed && Sent(c, e) != "" }

  predicate Loses(c: Conn, e: Event) { CutsOff(c, e) || ComesTooLate(c, e) }

  // What of the bytes sent can no longer get to the wire.
  function Lost(c: Conn, e: Event): string {
    if CutsOff(c, e) then Queued(c.tasks) else if c.halfClosed then Sent(c, e) else ""
  }

  lemma RunInOrder(c: Conn, answer: Answer)
    requires Legal(c, RunTask(answer)) && Inv(c) && !c.halfClosed && !c.state.Disconnected?
    requires !BreaksDown(c, RunTask(answer))
    ensures Kept(c, RunTask(answer)) + Queued(Step(c, RunTask(answer)).tasks) == Queued(c.tasks)
  {
    assert Queued(c.tasks) == Kept(c, RunTask(answer)) + Queued(c.tasks[1..]);
    hide Queued, Kept, Inv;
  }

  lemma SendKeepsAll(c: Conn, message: string, answer: Answer)
    requires c.state.Connected? ==> Possible(c, message, answer) && !(WritesDirectly(c) && answer.PeerGone?)
    ensures c.state.Connected? ==> AfterSendInLoop(c, message, answer).tasks == c.tasks && KeptBySend(c, message, answer) == message
  {
  }

  lemma WriteKeepsTasks(c: Conn, answer: Answer)
    requires Possible(c, c.output, answer)
    ensures AfterWrite(c, answer).tasks == c.tasks
  {
  }

  // What is queued, and what leaves the queue, in a step that does not half-close.
  lemma TasksInOrder(c: Conn, e: Event)
    requires Legal(c, e) && Inv(c) && !c.halfClosed && !c.state.Disconnected? && !BreaksDown(c, e)
    ensures var d := Step(c, e);
            if e.Send? && e.inLoop then d.tasks == c.tasks && Kept(c, e) == Sent(c, e)
            else Kept(c, e) + Queued(d.tasks) == Queued(c.tasks) + Sent(c, e)
  {
    if e.RunTask? {
      hide Inv, Queued, Kept, Step;
      RunInOrder(c, e.answer);
      AddNothing(Queued(c.tasks));
    } else if e.Send? && e.inLoop {
      hide Inv, Queued, Kept, Step;
      DirectSendInOrder(c, e.message, e.answer);
    } else {
      OthersInOrder(c, e);
    }
  }

  lemma OthersInOrder(c: Conn, e: Event)
    requires Legal(c, e) && Inv(c) && !e.RunTask? && !(e.Send? && e.inLoop)
    ensures Kept(c, e) + Queued(Step(c, e).tasks) == Queued(c.tasks) + Sent(c, e)
  {
    hide Inv, Queued, AfterWrite, AfterShutdown, Possible;
    AddNothing(Queued(c.tasks));
    match e
    case Writable(answer) => WriteKeepsTasks(c, answer);
    case Shutdown(_) => ShutdownKeepsTasks(c);
    case ForceClose(_) => QueuedAppend(c.tasks, ForceCloseTask);
    case Enqueue(task) => QueuedAppend(c.tasks, task);
    case _ =>
  }

  lemma DirectSendInOrder(c: Conn, message: string, answer: Answer)
    requires Legal(c, Send(message, true, answer)) && Inv(c) && !c.halfClosed && !BreaksDown(c, Send(message, true, answer))
    ensures var e := Send(message, true, answer); Step(c, e).tasks == c.tasks && Kept(c, e) == Sent(c, e)
  {
    hide Inv, AfterSendInLoop, KeptBySend;
    SendKeepsAll(c, message, answer);
  }

  lemma ShutdownKeepsTasks(c: Conn)
    ensures AfterShutdown(c.(state := Disconnecting)).tasks == c.tasks
  {
  }

  /** A step leaves an open connection half-closed with messages still queued exactly in those three cases. */
  lemma HalfClosesOverQueueIff(c: Conn, e: Event)
    requires Legal(c, e) && Inv(c) && Open(c) && !c.halfClosed
    ensures Step(c, e).halfClosed && Queued(Step(c, e).tasks) != "" <==> CutsOff(c, e)
  {
    hide OnlySends, Coming;
    if e.RunTask? && !c.tasks[0].SendTask? { assert Queued(c.tasks) == Queued(c.tasks[1..]); }
    hide Queued;
  }

  // After half-close nothing is accepted any more, and nothing that is queued gets through.
  lemma HalfClosedStep(c: Conn, e: Event)
    requires Legal(c, e) && Inv(c) && c.halfClosed && !c.state.Disconnected?
    ensures Step(c, e).halfClosed && Kept(c, e) == "" && !CutsOff(c, e)
  {
  }

  // What half-closes a connection moves no message.
  lemma HalfClosingStep(c: Conn, e: Event)
    requires Legal(c, e) && Inv(c) && Open(c) && !c.halfClosed && Step(c, e).halfClosed
    ensures Kept(c, e) == "" && Sent(c, e) == "" && Queued(Step(c, e).tasks) == Queued(c.tasks)
  {
    if e.RunTask? { assert Queued(c.tasks) == Queued(c.tasks[1..]); }
    hide Queued;
  }

  /** As long as the connection is open and the kernel does not fail, each step loses the queue if it cuts
      it off, a message if that comes too late, and nothing otherwise; and nothing is reordered but by the
      loop thread sending past the queue. */
  lemma StepLoses(c: Conn, e: Event)
    requires Legal(c, e) && Inv(c) && !c.state.Disconnected? && !BreaksDown(c, e)
    ensures var d := Step(c, e);
            && |OnItsWay(d)| == |OnItsWay(c)| + |Sent(c, e)| - |Lost(c, e)|
            && (Lost(c, e) != "" <==> Loses(c, e))
            && (!Loses(c, e) && !SendsPastQueue(c, e) ==> OnItsWay(d) == OnItsWay(c) + Sent(c, e))
  {
    StaysClosed(c, e);
    StepConserves(c, e);
    var d := Step(c, e);
    LostIffLoses(c, e);
    hide Step, Inv, Kept, Sent, Queued, BreaksDown, CutsOff, ComesTooLate, Legal;
    if c.halfClosed {
      HalfClosedStep(c, e);
    } else if d.halfClosed {
      OpenWhenHalfClosing(c, e);
      HalfClosesOverQueueIff(c, e);
      HalfClosingStep(c, e);
    } else {
      NotCutOff(c, e);
      TasksInOrder(c, e);
      Regroup(c.wire + c.output, Kept(c, e), Queued(d.tasks), Queued(c.tasks), Sent(c, e));
    }
  }

  lemma Regroup(w: string, kept: string, queued': string, queued: string, sent: string)
    ensures kept + queued' == queued + sent ==> w + kept + queued' == w + queued + sent
  {
    assert w + kept + queued' == w + (kept + queued');
    assert w + queued + sent == w + (queued + sent);
  }

  lemma StaysClosed(c: Conn, e: Event)
    requires Legal(c, e) && Inv(c)
    ensures c.state.Disconnected? ==> Step(c, e).state.Disconnected?
    ensures c.halfClosed ==> Step(c, e).halfClosed
  {
  }

  lemma OpenWhenHalfClosing(c: Conn, e: Event)
    requires Legal(c, e) && Inv(c) && !c.halfClosed && Step(c, e).halfClosed && !c.state.Disconnected?
    ensures Open(c)
  {
  }

  lemma NotCutOff(c: Conn, e: Event)
    requires Legal(c, e) && Inv(c) && !Step(c, e).halfClosed
    ensures !CutsOff(c, e)
  {
  }

  // Everything send() took.
  ghost function AllSent(c: Conn, events: seq<Event>): string
    requires Inv(c) && LegalRun(c, events)
    decreases |events|
  {
    if events == [] then "" else Sent(c, events[0]) + AllSent(Step(c, events[0]), events[1..])
  }

  // Some step of the run satisfies the predicate.
  ghost predicate LosesIn(c: Conn, events: seq<Event>)
    requires Inv(c) && LegalRun(c, events)
    decreases |events|
  {
    events != [] && (Loses(c, events[0]) || LosesIn(Step(c, events[0]), events[1..]))
  }

  ghost predicate BreaksDownIn(c: Conn, events: seq<Event>)
    requires Inv(c) && LegalRun(c, events)
    decreases |events|
  {
    events != [] && (BreaksDown(c, events[0]) || BreaksDownIn(Step(c, events[0]), events[1..]))
  }

  // The loop thread sends while messages of other threads wait.
  ghost predicate SendsPastQueueIn(c: Conn, events: seq<Event>)
    requires Inv(c) && LegalRun(c, events)
    decreases |events|
  {
    events != [] && (SendsPastQueue(c, events[0]) || SendsPastQueueIn(Step(c, events[0]), events[1..]))
  }

  predicate SendsPastQueue(c: Conn, e: Event) { e.Send? && e.inLoop && Queued(c.tasks) != "" }

  lemma RunUnfolds(c: Conn, e: Event, rest: seq<Event>, events: seq<Event>)
    requires Inv(c) && LegalRun(c, events) && events != [] && e == events[0] && rest == events[1..]
    ensures Legal(c, e) && Inv(Step(c, e)) && LegalRun(Step(c, e), rest)
    ensures var c' := Step(c, e);
            && Run(c, events) == Run(c', rest)
            && AllSent(c, events) == Sent(c, e) + AllSent(c', rest)
            && (LosesIn(c, events) <==> Loses(c, e) || LosesIn(c', rest))
            && (BreaksDownIn(c, events) <==> BreaksDown(c, e) || BreaksDownIn(c', rest))
            && (SendsPastQueueIn(c, events) <==> SendsPastQueue(c, e) || SendsPastQueueIn(c', rest))
  {
    hide Step, Inv, Legal, Loses, BreaksDown, SendsPastQueue, Sent;
  }

  lemma {:induction false} RunLoses(c: Conn, events: seq<Event>)
    requires Inv(c) && LegalRun(c, events) && !BreaksDownIn(c, events) && !Run(c, events).state.Disconnected?
    ensures |OnItsWay(Run(c, events))| <= |OnItsWay(c)| + |AllSent(c, events)|
    ensures |OnItsWay(Run(c, events))| == |OnItsWay(c)| + |AllSent(c, events)| <==> !LosesIn(c, events)
    ensures !LosesIn(c, events) && !SendsPastQueueIn(c, events) ==> OnItsWay(Run(c, events)) == OnItsWay(c) + AllSent(c, events)
    decreases |events|
  {
    hide *;
    if events == [] {
      NothingDone(c);
      AddNothing(OnItsWay(c));
    } else {
      var e, rest := events[0], events[1..];
      RunUnfolds(c, e, rest, events);
      var c' := Step(c, e);
      EndsOpen(c, events);
      EndsOpen(c', rest);
      StepLoses(c, e);
      RunLoses(c', rest);
      LossesAdd(OnItsWay(c), OnItsWay(c'), OnItsWay(Run(c', rest)), Sent(c, e), AllSent(c', rest), Lost(c, e), LosesIn(c', rest));
    }
  }

  lemma NothingDone(c: Conn)
    requires Inv(c)
    ensures LegalRun(c, []) && Run(c, []) == c && AllSent(c, []) == "" && !LosesIn(c, []) && !SendsPastQueueIn(c, [])
  {
    hide Inv;
  }

  // What a step loses and what the rest of the run loses.
  lemma LossesAdd(w: string, w': string, w'': string, sent: string, more: string, lost: string, losesMore: bool)
    requires |w'| == |w| + |sent| - |lost|
    requires |w''| <= |w'| + |more| && (|w''| == |w'| + |more| <==> !losesMore)
    ensures |w''| <= |w| + |sent + more| && (|w''| == |w| + |sent + more| <==> lost == "" && !losesMore)
    ensures w' == w + sent && w'' == w' + more ==> w'' == w + (sent + more)
  {
    assert w + sent + more == w + (sent + more);
  }

  lemma LostIffLoses(c: Conn, e: Event)
    ensures Lost(c, e) != "" <==> Loses(c, e)
  {
  }

  lemma {:induction false} EndsOpen(c: Conn, events: seq<Event>)
    requires Inv(c) && LegalRun(c, events) && !Run(c, events).state.Disconnected?
    ensures !c.state.Disconnected?
    decreases |events|
  {
    if events != [] {
      StaysClosed(c, events[0]);
      hide Step, Inv;
      EndsOpen(Step(c, events[0]), events[1..]);
    }
  }

  /** Until the connection is closed, and while the kernel does not fail: every byte send() took, on
      whatever thread, is on the wire, buffered, or queued with a way out, if and only if no step half-closed
      over the queue and no message was queued after a half-close; and if besides the loop thread never sent
      past the queue, they are all in order. */
  lemma SentSurvivesIffNoneLost(events: seq<Event>)
    requires LegalRun(Created, events) && !BreaksDownIn(Created, events) && !Run(Created, events).state.Disconnected?
    ensures var d := Run(Created, events);
            && (|OnItsWay(d)| == |AllSent(Created, events)| <==> !LosesIn(Created, events))
            && (!SendsPastQueueIn(Created, events) ==>
                  (OnItsWay(d) == AllSent(Created, events) <==> !LosesIn(Created, events)))
  {
    RunLoses(Created, events);
    assert OnItsWay(Created) == "" && "" + AllSent(Created, events) == AllSent(Created, events);
    hide Run, LegalRun, AllSent, OnItsWay, LosesIn, SendsPastQueueIn, BreaksDownIn;
  }

  // A run, and what happens before it.
  lemma Before(c: Conn, e: Event, events: seq<Event>)
    requires Inv(c) && Legal(c, e) && Inv(Step(c, e)) && LegalRun(Step(c, e), events)
    ensures LegalRun(c, [e] + events) && Run(c, [e] + events) == Run(Step(c, e), events)
  {
    assert ([e] + events)[1..] == events;
  }

  // A run of a new connection, and where it ends.
  ghost predicate Leads(events: seq<Event>, c: Conn) {
    LegalRun(Created, events) && Inv(c) && Run(Created, events) == c
  }

  lemma {:induction false} RunExtended(c: Conn, events: seq<Event>, e: Event)
    requires Inv(c) && LegalRun(c, events) && Inv(Run(c, events)) && Legal(Run(c, events), e)
    requires Inv(Step(Run(c, events), e))
    ensures LegalRun(c, events + [e]) && Run(c, events + [e]) == Step(Run(c, events), e)
    decreases |events|
  {
    hide Step, Inv, Legal;
    if events == [] {
      Before(c, e, []);
      assert events + [e] == [e] + [];
    } else {
      RunExtended(Step(c, events[0]), events[1..], e);
      Before(c, events[0], events[1..] + [e]);
      assert events + [e] == [events[0]] + (events[1..] + [e]);
    }
  }

  lemma Then(events: seq<Event>, c: Conn, e: Event, d: Conn)
    requires Leads(events, c) && Legal(c, e) && Step(c, e) == d
    ensures Leads(events + [e], d)
  {
    StepKeepsInv(c, e);
    hide Step, Inv, Legal, LegalRun, Run;
    RunExtended(Created, events, e);
  }

  // A connection on which another thread has passed the check of send(), with `output` buffered.
  function Sending(output: string, message: string): Conn {
    Conn(Connected, true, output != "", output, "", false, [], multiset{SendTask(message)})
  }

  lemma SendingIsReached(message: string)
    ensures Leads([Establish, Send(message, false, WouldBlock)], Sending("", message))
  {
    CreatedInv();
    var c1 := Created.(state := Connected, reading := true);
    assert Leads([], Created);
    Then([], Created, Establish, c1);
    Then([Establish], c1, Send(message, false, WouldBlock), Sending("", message));
    assert [] + [Establish] == [Establish];
    hide *;
    assert [Establish] + [Send(message, false, WouldBlock)] == [Establish, Send(message, false, WouldBlock)];
  }

  // The message is neither on the wire nor waiting anywhere.
  predicate Gone(c: Conn, wire: string) {
    c.wire == wire && c.output == "" && c.tasks == [] && c.passed == multiset{} && c.halfClosed
  }

  /** Each case occurs.  A shutdown on the loop thread overtakes a message another thread has sent ... */
  lemma ShutdownOvertakesQueuedSend(message: string) returns (c: Conn)
    requires message != ""
    ensures Leads([Establish, Send(message, false, WouldBlock), Enqueue(SendTask(message)), Shutdown(true), RunTask(PeerGone)], c)
    ensures Gone(c, "")
  {
    SendingIsReached(message);
    var c2 := Sending("", message);
    var c3 := c2.(tasks := [SendTask(message)], passed := multiset{});
    var c4 := c3.(state := Disconnecting, halfClosed := true);
    c := c4.(tasks := []);
    hide Leads, Run, LegalRun;
    var front := [Establish, Send(message, false, WouldBlock)];
    Then(front, c2, Enqueue(SendTask(message)), c3);
    Then(front + [Enqueue(SendTask(message))], c3, Shutdown(true), c4);
    Then(front + [Enqueue(SendTask(message))] + [Shutdown(true)], c4, RunTask(PeerGone), c);
    assert front + [Enqueue(SendTask(message))] + [Shutdown(true)] + [RunTask(PeerGone)]
           == [Establish, Send(message, false, WouldBlock), Enqueue(SendTask(message)), Shutdown(true), RunTask(PeerGone)];
  }

  /** ... or comes between the check of send() and the queueing; ... */
  lemma SendComesTooLate(message: string) returns (c: Conn)
    requires message != ""
    ensures Leads([Establish, Send(message, false, WouldBlock), Shutdown(true), Enqueue(SendTask(message)), RunTask(PeerGone)], c)
    ensures Gone(c, "")
  {
    SendingIsReached(message);
    var c2 := Sending("", message);
    var c3 := c2.(state := Disconnecting, halfClosed := true);
    var c4 := c3.(tasks := [SendTask(message)], passed := multiset{});
    c := c4.(tasks := []);
    hide Leads, Run, LegalRun;
    var front := [Establish, Send(message, false, WouldBlock)];
    Then(front, c2, Shutdown(true), c3);
    Then(front + [Shutdown(true)], c3, Enqueue(SendTask(message)), c4);
    Then(front + [Shutdown(true)] + [Enqueue(SendTask(message))], c4, RunTask(PeerGone), c);
    assert front + [Shutdown(true)] + [Enqueue(SendTask(message))] + [RunTask(PeerGone)]
           == [Establish, Send(message, false, WouldBlock), Shutdown(true), Enqueue(SendTask(message)), RunTask(PeerGone)];
  }

  /** ... a shutdown of another thread overlaps the send() and is queued first; ... */
  lemma OverlappingShutdownOvertakesSend(message: string) returns (c: Conn)
    requires message != ""
    ensures Leads([Establish, Send(message, false, WouldBlock), Shutdown(false), Enqueue(ShutdownTask),
                   Enqueue(SendTask(message)), RunTask(WouldBlock), RunTask(PeerGone)], c)
    ensures Gone(c, "")
  {
    hide Leads, Run, LegalRun;
    var both := OverlapBegins(message);
    var c5 := Sending("", message).(state := Disconnecting, tasks := [ShutdownTask, SendTask(message)], passed := multiset{});
    var c6 := c5.(tasks := [SendTask(message)], halfClosed := true);
    c := c6.(tasks := []);
    Then(both, c5, RunTask(WouldBlock), c6);
    Then(both + [RunTask(WouldBlock)], c6, RunTask(PeerGone), c);
    assert both + [RunTask(WouldBlock)] + [RunTask(PeerGone)]
           == [Establish, Send(message, false, WouldBlock), Shutdown(false), Enqueue(ShutdownTask),
               Enqueue(SendTask(message)), RunTask(WouldBlock), RunTask(PeerGone)];
  }

  lemma OverlapBegins(message: string) returns (events: seq<Event>)
    ensures events == [Establish, Send(message, false, WouldBlock), Shutdown(false), Enqueue(ShutdownTask), Enqueue(SendTask(message))]
    ensures Leads(events, Sending("", message).(state := Disconnecting, tasks := [ShutdownTask, SendTask(message)], passed := multiset{}))
  {
    hide Leads, Run, LegalRun;
    SendingIsReached(message);
    var c2 := Sending("", message);
    var c3 := c2.(state := Disconnecting, passed := multiset{SendTask(message), ShutdownTask});
    var c4 := c3.(tasks := [ShutdownTask], passed := multiset{SendTask(message)});
    var front := [Establish, Send(message, false, WouldBlock)];
    Then(front, c2, Shutdown(false), c3);
    Then(front + [Shutdown(false)], c3, Enqueue(ShutdownTask), c4);
    Then(front + [Shutdown(false)] + [Enqueue(ShutdownTask)], c4, Enqueue(SendTask(message)),
         c4.(tasks := [ShutdownTask, SendTask(message)], passed := multiset{}));
    events := front + [Shutdown(false)] + [Enqueue(ShutdownTask)] + [Enqueue(SendTask(message))];
  }

  /** ... or the very thread that sent it then shuts down, and the buffer drains in between. */
  lemma DrainOvertakesQueuedSend(first: char, message: string) returns (c: Conn)
    requires message != ""
    ensures Leads([Establish, Send([first], true, WouldBlock), Send(message, false, WouldBlock), Enqueue(SendTask(message)),
                   Shutdown(false), Enqueue(ShutdownTask), Writable(Wrote(1)), RunTask(PeerGone), RunTask(WouldBlock)], c)
    ensures Gone(c, [first])
  {
    hide Leads, Run, LegalRun;
    var front := DrainBegins(first, message);
    var c4 := Sending([first], message).(tasks := [SendTask(message)], passed := multiset{});
    var c5 := c4.(state := Disconnecting, passed := multiset{ShutdownTask});
    var c6 := c5.(tasks := [SendTask(message), ShutdownTask], passed := multiset{});
    var c7 := c6.(wire := [first], output := "", writing := false, halfClosed := true);
    var c8 := c7.(tasks := [ShutdownTask]);
    c := c7.(tasks := []);
    Then(front, c4, Shutdown(false), c5);
    Then(front + [Shutdown(false)], c5, Enqueue(ShutdownTask), c6);
    var both := front + [Shutdown(false)] + [Enqueue(ShutdownTask)];
    Then(both, c6, Writable(Wrote(1)), c7);
    Then(both + [Writable(Wrote(1))], c7, RunTask(PeerGone), c8);
    Then(both + [Writable(Wrote(1))] + [RunTask(PeerGone)], c8, RunTask(WouldBlock), c);
    assert both + [Writable(Wrote(1))] + [RunTask(PeerGone)] + [RunTask(WouldBlock)]
           == [Establish, Send([first], true, WouldBlock), Send(message, false, WouldBlock), Enqueue(SendTask(message)),
               Shutdown(false), Enqueue(ShutdownTask), Writable(Wrote(1)), RunTask(PeerGone), RunTask(WouldBlock)];
  }

  lemma DrainBegins(first: char, message: string) returns (events: seq<Event>)
    ensures events == [Establish, Send([first], true, WouldBlock), Send(message, false, WouldBlock), Enqueue(SendTask(message))]
    ensures Leads(events, Sending([first], message).(tasks := [SendTask(message)], passed := multiset{}))
  {
    CreatedInv();
    assert Leads([], Created);
    hide Leads, Run, LegalRun;
    var c1 := Created.(state := Connected, reading := true);
    var c2 := c1.(output := [first], writing := true);
    var c3 := Sending([first], message);
    var e1, e2, e3, e4 := Establish, Send([first], true, WouldBlock), Send(message, false, WouldBlock), Enqueue(SendTask(message));
    Then([], Created, e1, c1);
    Then([] + [e1], c1, e2, c2);
    Then([] + [e1] + [e2], c2, e3, c3);
    Then([] + [e1] + [e2] + [e3], c3, e4, c3.(tasks := [SendTask(message)], passed := multiset{}));
    events := [e1, e2, e3, e4];
    assert [] + [e1] + [e2] + [e3] + [e4] == events;
  }

  /** connectDestroyed leaves the channel without interest, as Channel::remove asserts, exactly when it
      does not find the connection disconnecting. */
  lemma DestroyedIsQuietIffNotDisconnecting(c: Conn)
    requires Inv(c)
    ensures var d := AfterDestroy(c); (!d.reading && !d.writing) <==> !c.state.Disconnecting?
  {
  }

  /** And it can find it so: TcpServer destroys its connections whatever state they are in. */
  lemma DestroyedWhileDisconnecting() returns (c: Conn)
    ensures Leads([Establish, Shutdown(false), Destroy], c) && c.state.Disconnecting? && c.reading
  {
    CreatedInv();
    assert Leads([], Created);
    hide Leads, Run, LegalRun;
    var c1 := Created.(state := Connected, reading := true);
    c := c1.(state := Disconnecting, passed := multiset{ShutdownTask});
    Then([], Created, Establish, c1);
    Then([] + [Establish], c1, Shutdown(false), c);
    Then([] + [Establish] + [Shutdown(false)], c, Destroy, c);
    assert [] + [Establish] + [Shutdown(false)] + [Destroy] == [Establish, Shutdown(false), Destroy];
  }

  // ---------------------------------------------------------------------------------------------
  // The class
  // ---------------------------------------------------------------------------------------------

  class Socket {
    var wire: string
    var halfClosed: bool

    constructor ()
      ensures wire == "" && !halfClosed
    {
      wire, halfClosed := "", false;
    }

    // sockets::write: the count, or -1 and an errno, as the kernel answers.
    method Write(data: string, answer: Answer) returns (n: int)
      requires answer.Wrote? ==> answer.n <= |data|
      modifies this`wire
      ensures if answer.Wrote? then n == answer.n && wire == old(wire) + data[..answer.n] else n < 0 && wire == old(wire)
    {
      match answer {
        case Wrote(k) =>
          n := k;
          wire := wire + data[..k];
        case _ => n := -1;
      }
    }

    method ShutdownWrite()
      modifies this`halfClosed
      ensures halfClosed
    {
      halfClosed := true;
    }
  }

  /** Each method changes the connection as the functions above say. */
  class TcpConnection {
    var state: State
    var reading: bool
    var writing: bool
    var functors: seq<Task>
    // of other threads between their look at the state and the queueing of their functor
    var passed: multiset<Task>
    const socket: Socket
    const outputBuffer: Buffer

    ghost predicate Valid() reads this, outputBuffer {
      outputBuffer.Valid()
    }

    function Here(): Conn
      requires Valid()
      reads this, socket, outputBuffer
    {
      Conn(state, reading, writing, outputBuffer.Readable(), socket.wire, socket.halfClosed, functors, passed)
    }

    constructor ()
      ensures Valid() && Here() == Created && fresh(socket) && fresh(outputBuffer)
    {
      state, reading, writing, functors, passed := Connecting, false, false, [], multiset{};
      socket := new Socket();
      outputBuffer := new Buffer(kInitialSize);
    }

    method ConnectEstablished()
      requires Valid() && state.Connecting? && Inv(Here())
      modifies this
      ensures Valid() && Here() == Step(old(Here()), Establish) && Inv(Here())
    {
      StepKeepsInv(Here(), Establish);
      state, reading := Connected, true;
    }

    method Send(message: string, inLoopThread: bool, answer: Answer)
      requires Valid() && Inv(Here()) && Legal(Here(), Event.Send(message, inLoopThread, answer))
      modifies this, socket, outputBuffer
      ensures Valid() && Here() == Step(old(Here()), Event.Send(message, inLoopThread, answer)) && Inv(Here())
    {
      StepKeepsInv(Here(), Event.Send(message, inLoopThread, answer));
      if state == Connected {
        if inLoopThread {
          SendInLoop(message, answer);
        } else {
          passed := passed + multiset{SendTask(message)};
        }
      }
    }

    method SendInLoop(data: string, answer: Answer)
      requires Valid() && Possible(Here(), data, answer)
      modifies this, socket, outputBuffer
      ensures Valid() && Here() == AfterSendInLoop(old(Here()), data, answer)
      ensures state == old(state) && functors == old(functors) && passed == old(passed)
    {
      var nwrote, faultError := 0, false;
      var remaining := |data|;
      if state == Disconnected { return; }
      if !writing && outputBuffer.Readable() == "" {
        nwrote := socket.Write(data, answer);
        if nwrote >= 0 {
          remaining := |data| - nwrote;
        } else {
          nwrote := 0;
          if answer != WouldBlock && answer == PeerGone { faultError := true; }
        }
      }
      assert remaining <= |data|;
      if !faultError && remaining > 0 {
        outputBuffer.Append(data[nwrote..]);
        if !writing { writing := true; }
      }
    }

    method HandleWrite(answer: Answer)
      requires Valid() && Possible(Here(), outputBuffer.Readable(), answer)
      modifies this, socket, outputBuffer
      ensures Valid() && Here() == AfterWrite(old(Here()), answer)
    {
      if writing {
        var n := socket.Write(outputBuffer.Readable(), answer);
        if n > 0 {
          outputBuffer.Retrieve(n);
          if outputBuffer.Readable() == "" {
            writing := false;
            if state == Disconnecting { ShutdownInLoop(); }
          }
        }
      }
    }

    method Shutdown(inLoopThread: bool)
      requires Valid() && Inv(Here())
      modifies this, socket
      ensures Valid() && Here() == Step(old(Here()), Event.Shutdown(inLoopThread)) && Inv(Here())
    {
      StepKeepsInv(Here(), Event.Shutdown(inLoopThread));
      if state == Connected {
        state := Disconnecting;
        if inLoopThread { ShutdownInLoop(); } else { passed := passed + multiset{ShutdownTask}; }
      }
    }

    method ShutdownInLoop()
      requires Valid()
      modifies socket
      ensures Valid() && Here() == AfterShutdown(old(Here()))
    {
      if !writing { socket.ShutdownWrite(); }
    }

    method ForceClose(inLoopThread: bool)
      requires Valid() && Inv(Here())
      modifies this
      ensures Valid() && Here() == Step(old(Here()), Event.ForceClose(inLoopThread)) && Inv(Here())
    {
      StepKeepsInv(Here(), Event.ForceClose(inLoopThread));
      if state == Connected || state == Disconnecting {
        state := Disconnecting;
        if inLoopThread { functors := functors + [ForceCloseTask]; } else { passed := passed + multiset{ForceCloseTask}; }
      }
    }

    // A send(), shutdown() or forceClose() of another thread goes on to queue its functor.
    method QueueInLoop(task: Task)
      requires Valid() && Inv(Here()) && task in passed
      modifies this
      ensures Valid() && Here() == Step(old(Here()), Enqueue(task)) && Inv(Here())
    {
      StepKeepsInv(Here(), Enqueue(task));
      passed := passed - multiset{task};
      functors := functors + [task];
    }

    method ForceCloseInLoop()
      requires Valid()
      modifies this
      ensures Valid() && Here() == AfterForceClose(old(Here()))
    {
      if state == Connected || state == Disconnecting { HandleClose(); }
    }

    method HandleClose()
      requires Valid() && (state == Connected || state == Disconnecting)
      modifies this
      ensures Valid() && Here() == AfterClose(old(Here()))
    {
      state := Disconnected;
      reading, writing := false, false;
    }

    method ConnectDestroyed()
      requires Valid()
      modifies this
      ensures Valid() && Here() == AfterDestroy(old(Here()))
    {
      if state == Connected {
        state := Disconnected;
        reading, writing := false, false;
      }
    }

    // The loop runs the first functor in its queue.
    method RunFunctor(answer: Answer)
      requires Valid() && Inv(Here()) && Legal(Here(), RunTask(answer))
      modifies this, socket, outputBuffer
      ensures Valid() && Here() == Step(old(Here()), RunTask(answer)) && Inv(Here())
    {
      StepKeepsInv(Here(), RunTask(answer));
      var task := functors[0];
      functors := functors[1..];
      match task {
        case SendTask(message) => SendInLoop(message, answer);
        case ShutdownTask => ShutdownInLoop();
        case ForceCloseTask => ForceCloseInLoop();
      }
    }
  }
}
