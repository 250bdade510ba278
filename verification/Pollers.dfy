/** The two pollers (muduo/net/poller/PollPoller.cc and EPollPoller.cc) and what both of them do: keep,
    for every registered descriptor, the events its channel last asked for.

    poll(2) is given an array on every call; epoll keeps the set in the kernel. */
module Pollers {
  type Fd = nat
  type Events = nat

  const kNew := -1
  const kAdded := 1
  const kDeleted := 2

  // ---------------------------------------------------------------------------------------------
  // What a poller is for
  // ---------------------------------------------------------------------------------------------

  type Interest = map<Fd, Events>

  datatype Op = Update(fd: Fd, events: Events) | Remove(fd: Fd)

  // A channel is registered by its first non-empty interest, and removed when it has none.
  predicate Legal(m: Interest, op: Op) {
    match op
    case Update(fd, events) => fd in m || events != 0
    case Remove(fd) => fd in m && m[fd] == 0
  }

  function Apply(m: Interest, op: Op): Interest {
    match op
    case Update(fd, events) => m[fd := events]
    case Remove(fd) => m - {fd}
  }

  function NonEmpty(m: Interest): Interest { map fd | fd in m && m[fd] != 0 :: m[fd] }

  // ---------------------------------------------------------------------------------------------
  // PollPoller
  // ---------------------------------------------------------------------------------------------

  datatype PollFd = PollFd(fd: int, events: Events)

  // The array, and for each registered descriptor the index its channel holds.
  datatype PollState = PollState(pollfds: seq<PollFd>, index: map<Fd, int>)

  // A negative descriptor makes poll(2) skip the entry; 0 has no negative, hence the -1.
  function Ignored(fd: Fd): int { -(fd as int) - 1 }

  function Decoded(fd: int): Fd { if fd < 0 then -fd - 1 else fd }

  predicate Parked(s: PollState, fd: Fd) {
    fd in s.index && 0 <= s.index[fd] < |s.pollfds| && s.pollfds[s.index[fd]].fd == Ignored(fd)
  }

  /** Channel index and array slot are inverse to each other. */
  ghost predicate PollValid(s: PollState) {
    && (forall fd | fd in s.index :: 0 <= s.index[fd] < |s.pollfds| && Decoded(s.pollfds[s.index[fd]].fd) == fd)
    && (forall i | 0 <= i < |s.pollfds| ::
          Decoded(s.pollfds[i].fd) in s.index && s.index[Decoded(s.pollfds[i].fd)] == i)
  }

  function PollUpdate(s: PollState, fd: Fd, events: Events): PollState
    requires PollValid(s)
  {
    if fd !in s.index then PollState(s.pollfds + [PollFd(fd, events)], s.index[fd := |s.pollfds|])
    else s.(pollfds := s.pollfds[s.index[fd] := PollFd(if events == 0 then Ignored(fd) else fd, events)])
  }

  // The last entry moves to the place of the one removed.
  function PollRemove(s: PollState, fd: Fd): PollState
    requires PollValid(s) && fd in s.index
  {
    var i, last := s.index[fd], |s.pollfds| - 1;
    if i == last then PollState(s.pollfds[..last], s.index - {fd})
    else PollState(s.pollfds[i := s.pollfds[last]][..last], (s.index - {fd})[Decoded(s.pollfds[last].fd) := i])
  }

  // What poll(2) is asked to watch.
  function PollWatches(s: PollState): Interest
    requires PollValid(s)
  {
    map fd | fd in s.index && s.pollfds[s.index[fd]].fd >= 0 :: s.pollfds[s.index[fd]].events
  }

  ghost predicate PollRefines(s: PollState, m: Interest) {
    && PollValid(s) && s.index.Keys == m.Keys
    && forall fd | fd in m :: s.pollfds[s.index[fd]] == PollFd(if m[fd] == 0 then Ignored(fd) else fd, m[fd])
  }

  lemma PollUpdateRefines(s: PollState, m: Interest, fd: Fd, events: Events)
    requires PollRefines(s, m) && Legal(m, Update(fd, events))
    ensures PollRefines(PollUpdate(s, fd, events), m[fd := events])
  {
  }

  lemma PollRemoveIsValid(s: PollState, fd: Fd)
    requires PollValid(s) && fd in s.index
    ensures var r := PollRemove(s, fd);
            && PollValid(r) && r.index.Keys == s.index.Keys - {fd}
            && forall f | f in r.index :: r.pollfds[r.index[f]] == s.pollfds[s.index[f]]
  {
    var i, last := s.index[fd], |s.pollfds| - 1;
    if i == last { LastRemoved(s, fd, last); } else { LastMoved(s, fd, i, last, Decoded(s.pollfds[last].fd)); }
  }

  lemma SlotOf(s: PollState, fd: Fd)
    requires PollValid(s) && fd in s.index
    ensures 0 <= s.index[fd] < |s.pollfds| && Decoded(s.pollfds[s.index[fd]].fd) == fd
  {
  }

  lemma RemoveUnfolds(s: PollState, fd: Fd, i: nat, last: nat, moved: Fd)
    requires PollValid(s) && fd in s.index && s.index[fd] == i && |s.pollfds| == last + 1
    requires moved == Decoded(s.pollfds[last].fd)
    ensures i <= last && moved in s.index && (i == last <==> moved == fd)
    ensures PollRemove(s, fd) ==
            if i == last then PollState(s.pollfds[..last], s.index - {fd})
            else PollState(s.pollfds[i := s.pollfds[last]][..last], (s.index - {fd})[moved := i])
  {
    if i < last { LastMoved(s, fd, i, last, moved); }
    hide PollValid;
  }

  lemma SwapThenCut(pollfds: seq<PollFd>, i: nat, last: nat)
    requires i < last && |pollfds| == last + 1
    ensures pollfds[i := pollfds[last]][last := pollfds[i]][..last] == pollfds[i := pollfds[last]][..last]
  {
  }

  lemma LastRemoved(s: PollState, fd: Fd, last: nat)
    requires PollValid(s) && fd in s.index && s.index[fd] == last && |s.pollfds| == last + 1
    ensures PollValid(PollState(s.pollfds[..last], s.index - {fd}))
  {
    assert Decoded(s.pollfds[last].fd) == fd;
    hide Decoded;
  }

  lemma LastMoved(s: PollState, fd: Fd, i: nat, last: nat, moved: Fd)
    requires PollValid(s) && fd in s.index && s.index[fd] == i && |s.pollfds| == last + 1 && i < last
    requires moved == Decoded(s.pollfds[last].fd)
    ensures moved in s.index && moved != fd
    ensures var r := PollState(s.pollfds[i := s.pollfds[last]][..last], (s.index - {fd})[moved := i]);
            && PollValid(r) && r.index.Keys == s.index.Keys - {fd}
            && forall f | f in r.index :: r.pollfds[r.index[f]] == s.pollfds[s.index[f]]
  {
    assert moved in s.index && s.index[moved] == last && Decoded(s.pollfds[i].fd) == fd;
    hide Decoded;
  }

  /** Removal keeps every other entry, under an index its channel knows. */
  lemma PollRemoveRefines(s: PollState, m: Interest, fd: Fd)
    requires PollRefines(s, m) && fd in m
    ensures PollRefines(PollRemove(s, fd), m - {fd})
  {
    PollRemoveIsValid(s, fd);
  }

  /** An update leaves a valid array whatever the events; but the entry of a first update without events
      is not parked, and Remove, which asserts that it is, would fail. */
  lemma ParkedIffUpdatedBefore(s: PollState, fd: Fd, events: Events)
    requires PollValid(s)
    ensures var r := PollUpdate(s, fd, events);
            PollValid(r) && (Parked(r, fd) <==> fd in s.index && events == 0)
  {
  }

  // ---------------------------------------------------------------------------------------------
  // EPollPoller
  // ---------------------------------------------------------------------------------------------

  // For each registered descriptor kAdded or kDeleted; and the kernel's set.
  datatype EPollState = EPollState(index: map<Fd, int>, kernel: Interest)

  datatype Ctl = CtlAdd | CtlMod | CtlDel

  // Anything but success is fatal, or at least logged.
  predicate CtlSucceeds(kernel: Interest, ctl: Ctl, fd: Fd) { if ctl == CtlAdd then fd !in kernel else fd in kernel }

  function EpollCtl(kernel: Interest, ctl: Ctl, fd: Fd, events: Events): Interest
    requires CtlSucceeds(kernel, ctl, fd)
  {
    if ctl == CtlDel then kernel - {fd} else kernel[fd := events]
  }

  ghost predicate EPollValid(s: EPollState) {
    && (forall fd | fd in s.index :: s.index[fd] == kAdded || s.index[fd] == kDeleted)
    && (forall fd :: fd in s.kernel <==> fd in s.index && s.index[fd] == kAdded)
  }

  function EPollUpdate(s: EPollState, fd: Fd, events: Events): EPollState
    requires EPollValid(s)
  {
    if fd !in s.index || s.index[fd] == kDeleted
    then EPollState(s.index[fd := kAdded], EpollCtl(s.kernel, CtlAdd, fd, events))
    else if events == 0 then EPollState(s.index[fd := kDeleted], EpollCtl(s.kernel, CtlDel, fd, events))
    else s.(kernel := EpollCtl(s.kernel, CtlMod, fd, events))
  }

  lemma EPollUpdateIsValid(s: EPollState, fd: Fd, events: Events)
    requires EPollValid(s)
    ensures EPollValid(EPollUpdate(s, fd, events))
    ensures fd in s.index ==> s.index[fd] == kAdded || s.index[fd] == kDeleted
    ensures fd in s.kernel <==> fd in s.index && s.index[fd] == kAdded
    ensures EPollUpdate(s, fd, events) ==
            if fd !in s.kernel then EPollState(s.index[fd := kAdded], s.kernel[fd := events])
            else if events == 0 then EPollState(s.index[fd := kDeleted], s.kernel - {fd})
            else s.(kernel := s.kernel[fd := events])
  {
  }

  function EPollRemove(s: EPollState, fd: Fd): EPollState
    requires EPollValid(s) && fd in s.index
  {
    EPollState(s.index - {fd}, if s.index[fd] == kAdded then EpollCtl(s.kernel, CtlDel, fd, 0) else s.kernel)
  }

  // A channel whose empty interest was updated again is back in the kernel's set, with no events.
  ghost predicate EPollRefines(s: EPollState, m: Interest) {
    && EPollValid(s) && s.index.Keys == m.Keys
    && forall fd | fd in m :: if s.index[fd] == kAdded then s.kernel[fd] == m[fd] else m[fd] == 0
  }

  /** No epoll_ctl fails: the functions above require its success, and this is all they need. */
  lemma EPollUpdateRefines(s: EPollState, m: Interest, fd: Fd, events: Events)
    requires EPollRefines(s, m)
    ensures EPollRefines(EPollUpdate(s, fd, events), m[fd := events])
  {
  }

  lemma EPollRemoveRefines(s: EPollState, m: Interest, fd: Fd)
    requires EPollRefines(s, m) && fd in m
    ensures EPollRefines(EPollRemove(s, fd), m - {fd})
  {
  }

  // ---------------------------------------------------------------------------------------------
  // Both, after any legal sequence
  // ---------------------------------------------------------------------------------------------

  datatype Both = Both(poll: PollState, epoll: EPollState, wanted: Interest)

  const Start := Both(PollState([], map[]), EPollState(map[], map[]), map[])

  ghost predicate Refined(b: Both) { PollRefines(b.poll, b.wanted) && EPollRefines(b.epoll, b.wanted) }

  function Next(b: Both, op: Op): (r: Both)
    requires Refined(b) && Legal(b.wanted, op)
    ensures Refined(r)
  {
    match op
    case Update(fd, events) =>
      PollUpdateRefines(b.poll, b.wanted, fd, events);
      EPollUpdateRefines(b.epoll, b.wanted, fd, events);
      Both(PollUpdate(b.poll, fd, events), EPollUpdate(b.epoll, fd, events), Apply(b.wanted, op))
    case Remove(fd) =>
      PollRemoveRefines(b.poll, b.wanted, fd);
      EPollRemoveRefines(b.epoll, b.wanted, fd);
      Both(PollRemove(b.poll, fd), EPollRemove(b.epoll, fd), Apply(b.wanted, op))
  }

  ghost predicate LegalRun(m: Interest, ops: seq<Op>)
    decreases |ops|
  {
    ops == [] || (Legal(m, ops[0]) && LegalRun(Apply(m, ops[0]), ops[1..]))
  }

  function Run(b: Both, ops: seq<Op>): (r: Both)
    requires Refined(b) && LegalRun(b.wanted, ops)
    ensures Refined(r)
    decreases |ops|
  {
    if ops == [] then b else Run(Next(b, ops[0]), ops[1..])
  }

  ghost function Wanted(m: Interest, ops: seq<Op>): Interest
    decreases |ops|
  {
    if ops == [] then m else Wanted(Apply(m, ops[0]), ops[1..])
  }

  lemma {:induction false} RunKeepsWanted(b: Both, ops: seq<Op>)
    requires Refined(b) && LegalRun(b.wanted, ops)
    ensures Run(b, ops).wanted == Wanted(b.wanted, ops)
    decreases |ops|
  {
    if ops != [] {
      hide Refined, Legal;
      RunKeepsWanted(Next(b, ops[0]), ops[1..]);
    }
  }

  /** After any legal sequence of updates and removals both pollers watch exactly the descriptors somebody
      wants events of, for exactly those events. */
  lemma BothWatchWhatIsWanted(ops: seq<Op>)
    requires LegalRun(map[], ops)
    ensures var r, wanted := Run(Start, ops), NonEmpty(Wanted(map[], ops));
            Refined(r) && PollWatches(r.poll) == wanted && NonEmpty(r.epoll.kernel) == wanted
  {
    RunKeepsWanted(Start, ops);
    hide Run, Wanted, LegalRun, PollValid, EPollValid, EPollRefines, PollRefines, PollWatches;
    WatchedIsWanted(Run(Start, ops));
  }

  lemma WatchedIsWanted(b: Both)
    requires Refined(b)
    ensures PollWatches(b.poll) == NonEmpty(b.wanted) && NonEmpty(b.epoll.kernel) == NonEmpty(b.wanted)
  {
  }

  /** The two differ in one way: an empty interest is never watched by poll; epoll, told about it twice,
      watches it for nothing. */
  lemma EmptyUpdateTwice(b: Both, fd: Fd)
    requires Refined(b) && fd in b.wanted && b.wanted[fd] == 0
    ensures fd !in PollWatches(Next(b, Update(fd, 0)).poll)
    ensures fd in Next(b, Update(fd, 0)).epoll.kernel <==> fd !in b.epoll.kernel
  {
  }

  // ---------------------------------------------------------------------------------------------
  // What poll(2) reports
  // ---------------------------------------------------------------------------------------------

  datatype Active = Active(fd: Fd, revents: Events)

  // The entries poll(2) marked, in the order of the array.
  function ReadyOnes(pollfds: seq<PollFd>, revents: seq<Events>): (ready: seq<Active>)
    requires |revents| == |pollfds|
    decreases |pollfds|
  {
    if pollfds == [] then []
    else (if revents[0] > 0 then [Active(Decoded(pollfds[0].fd), revents[0])] else []) + ReadyOnes(pollfds[1..], revents[1..])
  }

  /** What poll(2) marked is reported with its descriptor and its events, in the order of the array, and nothing
      else: an entry more reports itself behind the others. */
  lemma {:induction false} ReadyLaw(pollfds: seq<PollFd>, revents: seq<Events>, more: PollFd, r: Events)
    requires |revents| == |pollfds|
    ensures ReadyOnes(pollfds + [more], revents + [r]) ==
            ReadyOnes(pollfds, revents) + if r == 0 then [] else [Active(if more.fd >= 0 then more.fd else -more.fd - 1, r)]
    ensures ReadyOnes([], []) == []
    decreases |pollfds|
  {
    if pollfds == [] {
      assert [] + [more] == [more] && [] + [r] == [r] && [more][1..] == [] && [r][1..] == [];
    } else {
      ReadyLaw(pollfds[1..], revents[1..], more, r);
      assert (pollfds + [more])[0] == pollfds[0] && (pollfds + [more])[1..] == pollfds[1..] + [more];
      assert (revents + [r])[0] == revents[0] && (revents + [r])[1..] == revents[1..] + [r];
    }
  }

  lemma {:induction false} ReadyPrefix(pollfds: seq<PollFd>, revents: seq<Events>, i: nat)
    requires |revents| == |pollfds| && i < |pollfds|
    ensures ReadyOnes(pollfds[i..], revents[i..]) ==
            (if revents[i] > 0 then [Active(Decoded(pollfds[i].fd), revents[i])] else [])
            + ReadyOnes(pollfds[i + 1..], revents[i + 1..])
  {
    assert pollfds[i..][1..] == pollfds[i + 1..] && revents[i..][1..] == revents[i + 1..];
  }

  lemma NoneReady(pollfds: seq<PollFd>, revents: seq<Events>)
    requires |revents| == |pollfds|
    ensures ReadyOnes(pollfds[|pollfds|..], revents[|pollfds|..]) == []
    ensures pollfds[0..] == pollfds && revents[0..] == revents
  {
  }

  lemma RegisteredSlots(s: PollState)
    requires PollValid(s)
    ensures forall i | 0 <= i < |s.pollfds| && s.pollfds[i].fd >= 0 :: s.pollfds[i].fd in s.index
  {
    assert forall i | 0 <= i < |s.pollfds| :: Decoded(s.pollfds[i].fd) in s.index;
  }

  // ---------------------------------------------------------------------------------------------
  // The classes
  // ---------------------------------------------------------------------------------------------

  class Channel {
    const fd: Fd
    var events: Events
    var index: int

    constructor (fd: Fd)
      ensures this.fd == fd && events == 0 && index == kNew
    {
      this.fd := fd;
      events, index := 0, kNew;
    }
  }

  class PollPoller {
    var pollfds: seq<PollFd>
    var channels: map<Fd, Channel>

    function Here(): PollState reads this, channels.Values {
      PollState(pollfds, map fd | fd in channels :: channels[fd].index)
    }

    ghost predicate Valid() reads this, channels.Values {
      PollValid(Here()) && forall fd | fd in channels :: channels[fd].fd == fd
    }

    constructor ()
      ensures Valid() && Here() == PollState([], map[])
    {
      pollfds, channels := [], map[];
    }

    // The source's assertions: a channel with an index is the registered one, any other is new.
    ghost predicate Known(channel: Channel) reads this, channel {
      if channel.index < 0 then channel.fd !in channels else channel.fd in channels && channels[channel.fd] == channel
    }

    method UpdateChannel(channel: Channel)
      requires Valid() && Known(channel)
      modifies this, channel`index
      ensures Valid() && Known(channel) && channel.index >= 0
      ensures Here() == PollUpdate(old(Here()), channel.fd, channel.events)
    {
      hide PollValid, Parked, PollUpdate, Here;
      ghost var s := Here();
      UpdatePlan(channel);
      if channel.index < 0 {
        pollfds := pollfds + [PollFd(channel.fd, channel.events)];
        channel.index := |pollfds| - 1;
        channels := channels[channel.fd := channel];
      } else {
        var idx := channel.index;
        assert 0 <= idx < |pollfds| && (pollfds[idx].fd == channel.fd || pollfds[idx].fd == Ignored(channel.fd));
        var pfd := PollFd(channel.fd, channel.events);
        if channel.events == 0 { pfd := PollFd(Ignored(channel.fd), channel.events); }
        pollfds := pollfds[idx := pfd];
      }
      IndicesAre(s.index[channel.fd := channel.index]);
    }

    lemma IndicesAre(index: map<Fd, int>)
      requires channels.Keys == index.Keys && forall fd | fd in channels :: channels[fd].index == index[fd]
      ensures Here() == PollState(pollfds, index)
    {
    }

    // What UpdateChannel finds, and what it has to leave.
    lemma UpdatePlan(channel: Channel)
      requires Valid() && Known(channel)
      ensures Here().pollfds == pollfds && Here().index.Keys == channels.Keys
      ensures forall fd | fd in channels :: Here().index[fd] == channels[fd].index
      ensures forall fd | fd in channels :: channels[fd].fd == fd && (fd == channel.fd || channels[fd] != channel)
      ensures channel.index >= 0 ==> channel.index < |pollfds| && Decoded(pollfds[channel.index].fd) == channel.fd
      ensures PollValid(PollUpdate(Here(), channel.fd, channel.events))
      ensures PollUpdate(Here(), channel.fd, channel.events) ==
              if channel.index < 0 then
                PollState(pollfds + [PollFd(channel.fd, channel.events)], Here().index[channel.fd := |pollfds|])
              else
                var fd := if channel.events == 0 then Ignored(channel.fd) else channel.fd;
                PollState(pollfds[channel.index := PollFd(fd, channel.events)], Here().index[channel.fd := channel.index])
    {
      var s := Here();
      if channel.index >= 0 { assert s.index[channel.fd := channel.index] == s.index; }
      ParkedIffUpdatedBefore(s, channel.fd, channel.events);
      if channel.fd in s.index { SlotOf(s, channel.fd); }
      hide PollValid, Decoded, Parked;
    }

    // What RemoveChannel finds, and what it has to leave: moved is the descriptor of the last entry.
    lemma RemovalPlan(channel: Channel) returns (moved: Fd)
      requires Valid() && channel.index >= 0 && Known(channel)
      ensures Here().pollfds == pollfds && Here().index.Keys == channels.Keys
      ensures forall fd | fd in channels :: Here().index[fd] == channels[fd].index && channels[fd].fd == fd
      ensures var i, last := channel.index, |pollfds| - 1;
              && i <= last && moved == Decoded(pollfds[last].fd) && moved in channels && (i == last <==> moved == channel.fd)
              && PollValid(PollRemove(Here(), channel.fd))
              && PollRemove(Here(), channel.fd) ==
                 if i == last then PollState(pollfds[..last], Here().index - {channel.fd})
                 else PollState(pollfds[i := pollfds[last]][..last], (Here().index - {channel.fd})[moved := i])
    {
      var s, last := Here(), |pollfds| - 1;
      PollRemoveIsValid(s, channel.fd);
      SlotOf(s, channel.fd);
      moved := Decoded(pollfds[last].fd);
      RemoveUnfolds(s, channel.fd, channel.index, last, moved);
      hide PollValid, PollRemove, Decoded;
    }

    /** The channel keeps the index it had, so it is not one UpdateChannel would take for new again. */
    method RemoveChannel(channel: Channel)
      requires Valid() && channel.index >= 0 && Known(channel)
      requires Parked(Here(), channel.fd)
      modifies this, channels.Values
      ensures Valid() && Here() == PollRemove(old(Here()), channel.fd)
      ensures channel.index == old(channel.index) && !Known(channel)
      ensures forall fd | fd in channels :: fd in old(channels) && channels[fd] == old(channels[fd])
    {
      hide PollValid, Parked, PollRemove, Decoded, Here;
      ghost var s, last := Here(), |pollfds| - 1;
      ghost var moved := RemovalPlan(channel);
      var idx := channel.index;
      channels := channels - {channel.fd};
      if idx == |pollfds| - 1 {
        pollfds := pollfds[..|pollfds| - 1];
        IndicesAre(s.index - {channel.fd});
      } else {
        MoveLast(idx, moved);
        IndicesAre((s.index - {channel.fd})[moved := idx]);
      }
    }

    // The last entry takes the place of the one at idx, and its channel is told.
    method MoveLast(idx: nat, ghost fd: Fd)
      requires idx < |pollfds| - 1 && fd == Decoded(pollfds[|pollfds| - 1].fd) && fd in channels
      requires forall f | f in channels && f != fd :: channels[f] != channels[fd]
      modifies this`pollfds, channels.Values
      ensures pollfds == old(pollfds)[idx := old(pollfds[|pollfds| - 1])][..|old(pollfds)| - 1]
      ensures forall f | f in channels :: channels[f].index == if f == fd then idx else old(channels[f].index)
    {
      ghost var before := pollfds;
      var channelAtEnd := pollfds[|pollfds| - 1].fd;
      pollfds := pollfds[idx := pollfds[|pollfds| - 1]][|pollfds| - 1 := pollfds[idx]];
      if channelAtEnd < 0 { channelAtEnd := -channelAtEnd - 1; }
      channels[channelAtEnd].index := idx;
      pollfds := pollfds[..|pollfds| - 1];
      SwapThenCut(before, idx, |before| - 1);
    }

    lemma SlotsRegistered()
      requires Valid()
      ensures forall i | 0 <= i < |pollfds| && pollfds[i].fd >= 0 :: pollfds[i].fd in channels
    {
      RegisteredSlots(Here());
      hide PollValid;
    }

    /** Given the number poll(2) returned, the loop stops early and still reports every ready channel. */
    method FillActiveChannels(numEvents: nat, revents: seq<Events>) returns (activeChannels: seq<Active>)
      requires Valid() && |revents| == |pollfds|
      requires forall i | 0 <= i < |pollfds| && revents[i] > 0 :: pollfds[i].fd >= 0
      ensures numEvents == |ReadyOnes(pollfds, revents)| ==> activeChannels == ReadyOnes(pollfds, revents)
      ensures activeChannels <= ReadyOnes(pollfds, revents) && |activeChannels| <= numEvents
    {
      hide ReadyOnes, PollValid, Valid;
      activeChannels := [];
      var left, i := numEvents, 0;
      ghost var ready := ReadyOnes(pollfds, revents);
      SlotsRegistered();
      NoneReady(pollfds, revents);
      while i < |pollfds| && left > 0
        invariant 0 <= i <= |pollfds| && |activeChannels| + left == numEvents
        invariant activeChannels <= ready && ready[|activeChannels|..] == ReadyOnes(pollfds[i..], revents[i..])
      {
        ghost var rest := ready[|activeChannels|..];
        ReadyPrefix(pollfds, revents, i);
        if revents[i] > 0 {
          left := left - 1;
          var channel := channels[pollfds[i].fd];
          assert rest[0] == Active(pollfds[i].fd, revents[i]) && rest[0] == ready[|activeChannels|];
          activeChannels := activeChannels + [Active(pollfds[i].fd, revents[i])];
          assert ready[|activeChannels|..] == rest[1..];
        }
        i := i + 1;
      }
    }
  }

  class EPollPoller {
    var channels: map<Fd, Channel>
    // the kernel's interest set
    var kernel: Interest

    function Here(): EPollState reads this, channels.Values {
      EPollState(map fd | fd in channels :: channels[fd].index, kernel)
    }

    ghost predicate Valid() reads this, channels.Values {
      EPollValid(Here()) && forall fd | fd in channels :: channels[fd].fd == fd
    }

    constructor ()
      ensures Valid() && Here() == EPollState(map[], map[])
    {
      channels, kernel := map[], map[];
    }

    ghost predicate Known(channel: Channel) reads this, channel {
      if channel.index == kNew then channel.fd !in channels else channel.fd in channels && channels[channel.fd] == channel
    }

    method Control(ctl: Ctl, channel: Channel)
      requires CtlSucceeds(kernel, ctl, channel.fd)
      modifies this`kernel
      ensures kernel == EpollCtl(old(kernel), ctl, channel.fd, channel.events)
    {
      kernel := if ctl == CtlDel then kernel - {channel.fd} else kernel[channel.fd := channel.events];
    }

    method UpdateChannel(channel: Channel)
      requires Valid() && Known(channel)
      modifies this, channel`index
      ensures Valid() && Known(channel) && (channel.index == kAdded || channel.index == kDeleted)
      ensures Here() == EPollUpdate(old(Here()), channel.fd, channel.events)
    {
      hide EPollValid, EPollUpdate, Here;
      ghost var s := Here();
      UpdatePlan(channel);
      if channel.index == kNew || channel.index == kDeleted {
        if channel.index == kNew { channels := channels[channel.fd := channel]; }
        channel.index := kAdded;
        Control(CtlAdd, channel);
      } else if channel.events == 0 {
        Control(CtlDel, channel);
        channel.index := kDeleted;
      } else {
        Control(CtlMod, channel);
      }
      IndicesAre(s.index[channel.fd := channel.index]);
    }

    lemma IndicesAre(index: map<Fd, int>)
      requires channels.Keys == index.Keys && forall fd | fd in channels :: channels[fd].index == index[fd]
      ensures Here() == EPollState(index, kernel)
    {
    }

    // What UpdateChannel finds, and what it has to leave.
    lemma UpdatePlan(channel: Channel)
      requires Valid() && Known(channel)
      ensures Here().kernel == kernel && Here().index.Keys == channels.Keys
      ensures forall fd | fd in channels :: Here().index[fd] == channels[fd].index
      ensures forall fd | fd in channels :: channels[fd].fd == fd && (fd == channel.fd || channels[fd] != channel)
      ensures channel.index == kNew || channel.index == kAdded || channel.index == kDeleted
      ensures channel.fd in kernel <==> channel.index == kAdded
      ensures EPollValid(EPollUpdate(Here(), channel.fd, channel.events))
      ensures EPollUpdate(Here(), channel.fd, channel.events) ==
              if channel.index != kAdded then EPollState(Here().index[channel.fd := kAdded], kernel[channel.fd := channel.events])
              else if channel.events == 0 then EPollState(Here().index[channel.fd := kDeleted], kernel - {channel.fd})
              else EPollState(Here().index[channel.fd := channel.index], kernel[channel.fd := channel.events])
    {
      if channel.index != kNew { assert Here().index[channel.fd := channel.index] == Here().index; }
      EPollUpdateIsValid(Here(), channel.fd, channel.events);
      hide EPollValid, EPollUpdate;
    }

    /** Unlike PollPoller's, a removed channel is as good as new. */
    method RemoveChannel(channel: Channel)
      requires Valid() && channel.index != kNew && Known(channel) && channel.events == 0
      modifies this, channel`index
      ensures Valid() && Here() == EPollRemove(old(Here()), channel.fd)
      ensures channel.index == kNew && Known(channel)
    {
      ghost var s := Here();
      assert s.index[channel.fd] == channel.index;
      channels := channels - {channel.fd};
      if channel.index == kAdded { Control(CtlDel, channel); }
      channel.index := kNew;
      assert Here() == EPollRemove(s, channel.fd);
    }
  }
}
