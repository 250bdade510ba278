/** Functors handed to an event loop, and the wakeups that make it look at them
    (muduo/net/EventLoop.cc).

    The first half interleaves the loop thread with any number of others at the granularity the source
    has: the push under the mutex and the write to the eventfd are two steps.  The second half is the
    class, as the loop thread runs it. */
module EventLoops {
  // A callback, and the callbacks it queues on the same loop when it runs.
  datatype Functor = Functor(id: int, queues: seq<Functor>)

  // An eventfd saturates here: a write that would pass it fails with EAGAIN and changes nothing.
  const kMaxCounter := 0xffff_ffff_ffff_fffe

  function Bumped(counter: nat): (r: nat)
    ensures r > 0
  {
    if counter < kMaxCounter then counter + 1 else kMaxCounter
  }

  // ---------------------------------------------------------------------------------------------
  // Threads
  // ---------------------------------------------------------------------------------------------

  type Thread = nat

  const LOOP: Thread := 0

  // Where the loop thread is in loop() and doPendingFunctors().
  datatype Pc =
    | Outside
    | Top
    | Polling
    | Handling(wakeupActive: bool)
    | BeforeSwap
    | Running

  /** `owing` are the threads that pushed a functor, or set quit_, and have yet to call wakeup();
      `pushed` is every functor ever pushed. */
  datatype Shared = Shared(pc: Pc, calling: bool, quit: bool, counter: nat, owing: set<Thread>,
                           pending: seq<Functor>, batch: seq<Functor>, executed: seq<Functor>, pushed: seq<Functor>)

  const Created := Shared(Outside, false, false, 0, {}, [], [], [], [])

  datatype Action =
    | Enter
    | CheckQuit
    | PollReturns(wakeupActive: bool)
    | ReadWakeup
    | EndHandling
    | Swap
    | RunOne
    | EndRun
    | Queue(thread: Thread, functor: Functor)
    | Quit(thread: Thread)
    | Wakeup(thread: Thread)

  function Actor(a: Action): Thread {
    match a
    case Queue(thread, _) => thread
    case Quit(thread) => thread
    case Wakeup(thread) => thread
    case _ => LOOP
  }

  // What can happen next.  A thread that owes a wakeup does that first; and poll() may have no room to report
  // a wakeup that came.
  predicate Enabled(s: Shared, a: Action) {
    && (a.Wakeup? <==> Actor(a) in s.owing)
    && match a
       case Enter => s.pc.Outside?
       case CheckQuit => s.pc.Top?
       case PollReturns(wakeupActive) => s.pc.Polling? && (wakeupActive ==> s.counter > 0)
       case ReadWakeup => s.pc.Handling? && s.pc.wakeupActive
       case EndHandling => s.pc.Handling? && !s.pc.wakeupActive
       case Swap => s.pc.BeforeSwap?
       case RunOne => s.pc.Running? && s.batch != []
       case EndRun => s.pc.Running? && s.batch == []
       case Queue(thread, _) => thread == LOOP ==> s.pc.Outside? || s.pc.Handling? || s.pc.Running?
       case Quit(thread) => thread == LOOP ==> s.pc.Outside? || s.pc.Handling? || s.pc.Running?
       case Wakeup(_) => true
  }

  function Next(s: Shared, a: Action): Shared
    requires Enabled(s, a)
  {
    match a
    case Enter => s.(pc := Top, quit := false)
    case CheckQuit => s.(pc := if s.quit then Outside else Polling)
    case PollReturns(wakeupActive) => s.(pc := Handling(wakeupActive))
    case ReadWakeup => s.(pc := Handling(false), counter := 0)
    case EndHandling => s.(pc := BeforeSwap, calling := true)
    case Swap => s.(pc := Running, batch := s.pending, pending := [])
    case RunOne => s.(batch := s.batch[1..], executed := s.executed + [s.batch[0]])
    case EndRun => s.(pc := Top, calling := false)
    case Queue(thread, functor) =>
      s.(pending := s.pending + [functor], pushed := s.pushed + [functor],
         owing := if thread != LOOP || s.calling then s.owing + {thread} else s.owing)
    case Quit(thread) => s.(quit := true, owing := if thread != LOOP then s.owing + {thread} else s.owing)
    case Wakeup(thread) => s.(counter := Bumped(s.counter), owing := s.owing - {thread})
  }

  // poll() will return at once, or some thread is about to make it.
  predicate WillWake(s: Shared) { s.counter > 0 || s.owing != {} }

  // Nothing is pending, or the loop will come round for it.
  predicate Covered(s: Shared) { s.pending == [] || WillWake(s) }

  // What holds wherever the loop thread is.
  predicate Sound(s: Shared) {
    && s.executed + s.batch + s.pending == s.pushed
    && (s.batch != [] ==> s.pc.Running?)
    && (s.calling <==> s.pc.BeforeSwap? || s.pc.Running?)
  }

  /** What holds once loop() was entered with nothing stranded: before the queue is swapped out nothing
      is required of it, for the swap is still to come. */
  predicate Attentive(s: Shared) {
    && Sound(s)
    && (s.pc.Top? || s.pc.Polling? || s.pc.Running? ==> Covered(s))
    && (s.pc.Polling? && s.quit ==> WillWake(s))
  }

  lemma NextIsSound(s: Shared, a: Action)
    requires Sound(s) && Enabled(s, a)
    ensures Sound(Next(s, a))
  {
  }

  lemma NextIsAttentive(s: Shared, a: Action)
    requires Attentive(s) && Enabled(s, a) && (a.Enter? ==> Covered(s))
    ensures Attentive(Next(s, a))
  {
  }

  ghost predicate LegalRun(s: Shared, actions: seq<Action>)
    decreases |actions|
  {
    actions == [] || (Enabled(s, actions[0]) && LegalRun(Next(s, actions[0]), actions[1..]))
  }

  ghost function Run(s: Shared, actions: seq<Action>): Shared
    requires LegalRun(s, actions)
    decreases |actions|
  {
    if actions == [] then s else Run(Next(s, actions[0]), actions[1..])
  }

  /** Every functor runs once, in the order of the pushes, in every interleaving: those executed, those
      in the batch being run and those pending are, in this order, those that were pushed. */
  lemma {:induction false} FunctorsRunOnceInOrder(s: Shared, actions: seq<Action>)
    requires Sound(s) && LegalRun(s, actions)
    ensures var e := Run(s, actions);
            Sound(e) && e.executed + e.batch + e.pending == e.pushed && s.executed <= e.executed
    decreases |actions|
  {
    if actions != [] {
      NextIsSound(s, actions[0]);
      hide Sound;
      FunctorsRunOnceInOrder(Next(s, actions[0]), actions[1..]);
    }
  }

  // The functors that the run hands to the loop, in order.
  function Handed(actions: seq<Action>): seq<Functor> {
    if actions == [] then [] else (if actions[0].Queue? then [actions[0].functor] else []) + Handed(actions[1..])
  }

  /** From a new loop on, those executed, those being run and those pending are exactly what all threads have
      queued, each once and in the order of their pushes. */
  lemma {:induction false} NothingButTheHanded(s: Shared, actions: seq<Action>)
    requires Sound(s) && LegalRun(s, actions)
    ensures var e := Run(s, actions); e.executed + e.batch + e.pending == s.pushed + Handed(actions)
    decreases |actions|
  {
    if actions == [] {
      assert s.pushed + [] == s.pushed;
    } else {
      NextIsSound(s, actions[0]);
      var one := if actions[0].Queue? then [actions[0].functor] else [];
      assert Next(s, actions[0]).pushed == s.pushed + one;
      hide Sound, Next, Enabled;
      NothingButTheHanded(Next(s, actions[0]), actions[1..]);
      assert s.pushed + one + Handed(actions[1..]) == s.pushed + (one + Handed(actions[1..]));
    }
  }

  lemma {:induction false} RunIsAttentive(s: Shared, actions: seq<Action>)
    requires Attentive(s) && LegalRun(s, actions) && Enter !in actions
    ensures Attentive(Run(s, actions))
    decreases |actions|
  {
    if actions != [] {
      NextIsAttentive(s, actions[0]);
      hide Attentive, Enabled, Next;
      RunIsAttentive(Next(s, actions[0]), actions[1..]);
    }
  }

  // The loop thread blocks although a functor waits and nobody is going to wake it.
  predicate Stranded(s: Shared) { s.pc.Polling? && !Covered(s) }

  /** No functor is stranded, in any interleaving that follows, exactly when loop() is entered with
      nothing pending or a wakeup on its way. */
  lemma NothingStrandedIffCoveredAtEntry(s: Shared)
    requires Sound(s) && Enabled(s, Enter)
    ensures (forall actions | LegalRun(s, [Enter] + actions) && Enter !in actions :: !Stranded(Run(s, [Enter] + actions)))
            <==> Covered(s)
  {
    if Covered(s) {
      forall actions | LegalRun(s, [Enter] + actions) && Enter !in actions ensures !Stranded(Run(s, [Enter] + actions)) {
        assert ([Enter] + actions)[1..] == actions;
        RunIsAttentive(Next(s, Enter), actions);
      }
    } else {
      StrandedAtOnce(s);
    }
  }

  lemma StrandedAtOnce(s: Shared)
    requires Sound(s) && Enabled(s, Enter) && !Covered(s)
    ensures LegalRun(s, [Enter] + [CheckQuit]) && Stranded(Run(s, [Enter] + [CheckQuit]))
  {
    var actions := [Enter] + [CheckQuit];
    assert actions[1..] == [CheckQuit] && [CheckQuit][1..] == [];
    var s1 := Next(s, Enter);
    assert LegalRun(Next(s1, CheckQuit), []) && LegalRun(s1, [CheckQuit]);
    assert Run(s1, [CheckQuit]) == Next(s1, CheckQuit);
  }

  /** The loop's own thread can bring that about: a functor it queues before loop() is not announced. */
  lemma QueuedBeforeLoopIsStranded(functor: Functor)
    ensures Enabled(Created, Queue(LOOP, functor))
    ensures var s := Next(Created, Queue(LOOP, functor)); Sound(s) && Enabled(s, Enter) && !Covered(s)
    ensures forall t: Thread | t != LOOP ::
              Enabled(Created, Queue(t, functor)) && Covered(Next(Created, Queue(t, functor)))
  {
    forall t: Thread | t != LOOP ensures Covered(Next(Created, Queue(t, functor))) {
      assert t in Next(Created, Queue(t, functor)).owing;
    }
  }

  /** quit() from another thread is seen: the loop thread does not stay in poll once quit_ is set. */
  lemma QuitIsNoticed(s: Shared, actions: seq<Action>)
    requires Attentive(s) && LegalRun(s, actions) && Enter !in actions
    ensures var e := Run(s, actions); e.pc.Polling? && e.quit ==> WillWake(e)
  {
    RunIsAttentive(s, actions);
  }

  // Whether somebody called quit() since loop() was last entered.
  function QuitAsked(before: bool, actions: seq<Action>): bool
    decreases |actions|
  {
    if actions == [] then before
    else QuitAsked(if actions[0].Enter? then false else before || actions[0].Quit?, actions[1..])
  }

  /** quit_ says whether quit() was called since loop() was entered; a call before that is forgotten. */
  lemma {:induction false} QuitIsWhatWasAsked(s: Shared, actions: seq<Action>)
    requires LegalRun(s, actions)
    ensures Run(s, actions).quit == QuitAsked(s.quit, actions)
    decreases |actions|
  {
    if actions != [] { QuitIsWhatWasAsked(Next(s, actions[0]), actions[1..]); }
  }

  /** The loop thread leaves loop() at the top of its loop, when quit_ is set, and otherwise polls; no other
      thread moves it. */
  lemma LoopLaw(s: Shared, a: Action)
    requires Enabled(s, a)
    ensures a.CheckQuit? ==> Next(s, a).pc == if s.quit then Outside else Polling
    ensures !a.CheckQuit? && !s.pc.Outside? ==> !Next(s, a).pc.Outside?
    ensures a.Queue? || a.Quit? || a.Wakeup? ==> Next(s, a).pc == s.pc
  {
  }

  /** What makes poll() return: a wakeup that was written and not yet read; and who has yet to write one is
      who pushed, or called quit(), off the loop thread, or pushed while functors are being called. */
  lemma WakeupLaw(s: Shared, a: Action)
    requires Enabled(s, a)
    ensures Next(s, a).counter == if a.ReadWakeup? then 0
                                  else if a.Wakeup? && s.counter < 0xffff_ffff_ffff_fffe then s.counter + 1
                                  else if a.Wakeup? then 0xffff_ffff_ffff_fffe else s.counter
    ensures Next(s, a).owing ==
            if (a.Queue? && (a.thread != LOOP || s.calling)) || (a.Quit? && a.thread != LOOP) then s.owing + {a.thread}
            else if a.Wakeup? then s.owing - {a.thread} else s.owing
  {
  }

  // ---------------------------------------------------------------------------------------------
  // The class
  // ---------------------------------------------------------------------------------------------

  // What the callbacks of one active channel do to the loop.
  datatype Active = WakeupChannel | OtherChannel(queues: seq<Functor>)

  function QueuedBy(batch: seq<Functor>): seq<Functor> {
    if batch == [] then [] else batch[0].queues + QueuedBy(batch[1..])
  }

  function QueuedByChannels(channels: seq<Active>): seq<Functor> {
    if channels == [] then []
    else (if channels[0].OtherChannel? then channels[0].queues else []) + QueuedByChannels(channels[1..])
  }

  /** What callbacks and handlers queue is queued in the order in which they are called. */
  lemma {:induction false} QueuedInTurn(batch: seq<Functor>, last: Functor, channels: seq<Active>, queues: seq<Functor>)
    ensures QueuedBy(batch + [last]) == QueuedBy(batch) + last.queues && QueuedBy([]) == []
    ensures QueuedByChannels(channels + [OtherChannel(queues)]) == QueuedByChannels(channels) + queues
    ensures QueuedByChannels(channels + [WakeupChannel]) == QueuedByChannels(channels) && QueuedByChannels([]) == []
    decreases |batch| + |channels|
  {
    if batch == [] {
      assert [] + [last] == [last] && [last][1..] == [];
    } else {
      QueuedInTurn(batch[1..], last, [], queues);
      assert (batch + [last])[0] == batch[0] && (batch + [last])[1..] == batch[1..] + [last];
    }
    if channels == [] {
      assert [] + [OtherChannel(queues)] == [OtherChannel(queues)] && [OtherChannel(queues)][1..] == [];
      assert [] + [WakeupChannel] == [WakeupChannel] && [WakeupChannel][1..] == [];
    } else {
      QueuedInTurn([], last, channels[1..], queues);
      assert forall c: Active :: (channels + [c])[0] == channels[0] && (channels + [c])[1..] == channels[1..] + [c];
    }
  }

  lemma OneMoreCalled(functors: seq<Functor>, i: nat, pending: seq<Functor>)
    requires i < |functors|
    ensures pending + QueuedBy(functors[i..]) == pending + functors[i].queues + QueuedBy(functors[i + 1..])
    ensures functors[..i + 1] == functors[..i] + [functors[i]]
  {
    assert functors[i..][1..] == functors[i + 1..];
  }

  class EventLoop {
    var callingPendingFunctors: bool
    var eventfd: nat
    var pendingFunctors: seq<Functor>
    // the calls made so far, in order
    var executed: seq<Functor>

    constructor ()
      ensures !callingPendingFunctors && eventfd == 0 && pendingFunctors == [] && executed == []
    {
      callingPendingFunctors, eventfd, pendingFunctors, executed := false, 0, [], [];
    }

    method Wakeup()
      modifies this`eventfd
      ensures eventfd == Bumped(old(eventfd))
    {
      if eventfd < kMaxCounter { eventfd := eventfd + 1; } else { eventfd := kMaxCounter; }
    }

    method HandleRead()
      modifies this`eventfd
      ensures eventfd == 0
    {
      eventfd := 0;
    }

    method QueueInLoop(cb: Functor, inLoopThread: bool)
      modifies this`pendingFunctors, this`eventfd
      ensures pendingFunctors == old(pendingFunctors) + [cb]
      ensures eventfd == if !inLoopThread || callingPendingFunctors then Bumped(old(eventfd)) else old(eventfd)
    {
      pendingFunctors := pendingFunctors + [cb];
      if !inLoopThread || callingPendingFunctors { Wakeup(); }
    }

    method Call(functor: Functor)
      modifies this`pendingFunctors, this`eventfd, this`executed
      ensures executed == old(executed) + [functor]
      ensures pendingFunctors == old(pendingFunctors) + functor.queues
      ensures callingPendingFunctors && functor.queues != [] ==> eventfd > 0
      ensures eventfd >= old(eventfd) || eventfd > 0
    {
      executed := executed + [functor];
      for i := 0 to |functor.queues|
        invariant executed == old(executed) + [functor]
        invariant pendingFunctors == old(pendingFunctors) + functor.queues[..i]
        invariant callingPendingFunctors && i > 0 ==> eventfd > 0
        invariant eventfd >= old(eventfd) || eventfd > 0
      {
        QueueInLoop(functor.queues[i], true);
        assert functor.queues[..i + 1] == functor.queues[..i] + [functor.queues[i]];
      }
      assert functor.queues[..|functor.queues|] == functor.queues;
    }

    /** Everything pending is called once and in order; what the calls queue in turn waits for the next
        round, and the loop has been woken for it. */
    method DoPendingFunctors()
      modifies this
      ensures !callingPendingFunctors
      ensures executed == old(executed) + old(pendingFunctors)
      ensures pendingFunctors == QueuedBy(old(pendingFunctors))
      ensures pendingFunctors != [] ==> eventfd > 0
      ensures old(eventfd) > 0 ==> eventfd > 0
    {
      callingPendingFunctors := true;
      var functors := pendingFunctors;
      pendingFunctors := [];
      for i := 0 to |functors|
        invariant callingPendingFunctors
        invariant executed == old(executed) + functors[..i]
        invariant pendingFunctors + QueuedBy(functors[i..]) == QueuedBy(functors)
        invariant pendingFunctors != [] ==> eventfd > 0
        invariant old(eventfd) > 0 ==> eventfd > 0
      {
        OneMoreCalled(functors, i, pendingFunctors);
        Call(functors[i]);
      }
      assert QueuedBy(functors[|functors|..]) == [];
      assert functors[..|functors|] == functors;
      callingPendingFunctors := false;
    }

    /** One turn of loop(): what was pending when poll returned and what the handlers queued is called,
        in this order; whatever is pending afterwards, poll will not block on. */
    method LoopOnce(activeChannels: seq<Active>)
      requires !callingPendingFunctors
      modifies this
      ensures !callingPendingFunctors
      ensures var batch := old(pendingFunctors) + QueuedByChannels(activeChannels);
              executed == old(executed) + batch && pendingFunctors == QueuedBy(batch)
      ensures pendingFunctors != [] ==> eventfd > 0
    {
      for i := 0 to |activeChannels|
        invariant !callingPendingFunctors && executed == old(executed)
        invariant pendingFunctors + QueuedByChannels(activeChannels[i..]) == old(pendingFunctors) + QueuedByChannels(activeChannels)
      {
        ghost var before, rest := pendingFunctors, QueuedByChannels(activeChannels[i + 1..]);
        assert activeChannels[i..][1..] == activeChannels[i + 1..];
        match activeChannels[i] {
          case WakeupChannel => HandleRead();
          case OtherChannel(queues) =>
            for k := 0 to |queues|
              invariant !callingPendingFunctors && executed == old(executed)
              invariant pendingFunctors == before + queues[..k]
            {
              QueueInLoop(queues[k], true);
              assert queues[..k + 1] == queues[..k] + [queues[k]];
            }
            assert queues[..|queues|] == queues;
            assert before + (queues + rest) == before + queues + rest;
        }
      }
      assert QueuedByChannels(activeChannels[|activeChannels|..]) == [];
      assert pendingFunctors == old(pendingFunctors) + QueuedByChannels(activeChannels);
      DoPendingFunctors();
    }
  }
}
