/** The timer queue: two ordered sets over the same heap of timers, and one timerfd
    (muduo/net/TimerQueue.cc, Timer.h, Timer.cc).

    Timers live at addresses, which the allocator may reuse; what identifies a timer is its sequence
    number.  Times and intervals are microseconds. */
module TimerQueues {
  const UINTPTR_MAX := 0xffff_ffff_ffff_ffff

  type Address = a: nat | a < UINTPTR_MAX

  datatype Timer = Timer(expiration: int, interval: int, sequence: nat)
  {
    predicate Repeat() { interval > 0 }
  }

  // std::pair<Timestamp, Timer*> and std::pair<Timer*, int64_t>
  datatype Entry = Entry(time: int, addr: nat)
  datatype ActiveTimer = ActiveTimer(addr: Address, sequence: nat)

  // The timerfd: set to expire (at a time, by a call at another time), or expired and not yet read.
  datatype TimerFd = Disarmed | Armed(deadline: int, armedAt: int) | Fired

  /** `waiting` are the timers whose addTimerInLoop is still a functor in the loop's queue; `expired` and
      `now` are locals of handleRead, of which `expired` is what it has yet to restart or free. */
  datatype Queue = Queue(heap: map<Address, Timer>, created: nat, waiting: set<Address>,
                         timers: seq<Entry>, active: set<ActiveTimer>, canceling: set<ActiveTimer>,
                         calling: bool, expired: seq<Entry>, now: int, fd: TimerFd)

  const Empty := Queue(map[], 0, {}, [], {}, {}, false, [], 0, Disarmed)

  // ---------------------------------------------------------------------------------------------
  // std::set<Entry> as an ascending sequence
  // ---------------------------------------------------------------------------------------------

  predicate Less(e: Entry, f: Entry) { e.time < f.time || (e.time == f.time && e.addr < f.addr) }

  ghost predicate Ascending(s: seq<Entry>) { forall i, j | 0 <= i < j < |s| :: Less(s[i], s[j]) }

  function LowerBound(s: seq<Entry>, e: Entry): (n: nat)
    ensures n <= |s| && (forall i | 0 <= i < n :: Less(s[i], e)) && (n < |s| ==> !Less(s[n], e))
  {
    if s == [] || !Less(s[0], e) then 0 else 1 + LowerBound(s[1..], e)
  }

  function Put(s: seq<Entry>, e: Entry): seq<Entry> {
    var n := LowerBound(s, e); s[..n] + [e] + s[n..]
  }

  function Erase(s: seq<Entry>, e: Entry): seq<Entry> {
    var n := LowerBound(s, e); if n < |s| && s[n] == e then s[..n] + s[n + 1..] else s
  }

  lemma PutMembers(s: seq<Entry>, e: Entry)
    ensures forall f :: f in Put(s, e) <==> f in s || f == e
    ensures Put(s, e) == s[..LowerBound(s, e)] + [e] + s[LowerBound(s, e)..]
  {
    var n := LowerBound(s, e);
    assert s == s[..n] + s[n..];
    hide LowerBound;
  }

  lemma PutIsAscending(s: seq<Entry>, e: Entry)
    requires Ascending(s) && e !in s
    ensures Ascending(Put(s, e)) && forall f :: f in Put(s, e) <==> f in s || f == e
    ensures Put(s, e)[0].time == if s == [] || e.time < s[0].time then e.time else s[0].time
  {
    hide LowerBound, Put, Ascending;
    PutMembers(s, e);
    var n := LowerBound(s, e);
    LargerBehind(s, e, n);
    InsertedAt(s, e, n, Put(s, e));
  }

  lemma LargerBehind(s: seq<Entry>, e: Entry, n: nat)
    requires Ascending(s) && e !in s && n == LowerBound(s, e)
    ensures forall k | n <= k < |s| :: Less(e, s[k])
  {
    hide LowerBound;
    forall k | n <= k < |s| ensures Less(e, s[k]) { assert s[n] in s && (k == n || Less(s[n], s[k])); }
  }

  lemma InsertedAt(s: seq<Entry>, e: Entry, n: nat, r: seq<Entry>)
    requires Ascending(s) && n <= |s| && r == s[..n] + [e] + s[n..]
    requires (forall i | 0 <= i < n :: Less(s[i], e)) && (forall k | n <= k < |s| :: Less(e, s[k]))
    ensures Ascending(r) && r != [] && r[0].time == if s == [] || e.time < s[0].time then e.time else s[0].time
  {
    assert forall k | 0 <= k < |r| :: r[k] == if k < n then s[k] else if k == n then e else s[k - 1];
  }

  lemma EraseIsAscending(s: seq<Entry>, e: Entry)
    requires Ascending(s) && e in s
    ensures Ascending(Erase(s, e)) && forall f :: f in Erase(s, e) <==> f in s && f != e
    ensures |Erase(s, e)| == |s| - 1 && (Erase(s, e) != [] ==> Erase(s, e)[0].time >= s[0].time)
  {
    var n := LowerBound(s, e);
    var k :| 0 <= k < |s| && s[k] == e;
    assert n == k;
    hide LowerBound;
    ErasedAt(s, e, n, Erase(s, e));
  }

  lemma ErasedAt(s: seq<Entry>, e: Entry, n: nat, r: seq<Entry>)
    requires Ascending(s) && n < |s| && s[n] == e && r == s[..n] + s[n + 1..]
    ensures Ascending(r) && |r| == |s| - 1 && (forall f :: f in r <==> f in s && f != e)
    ensures r != [] ==> r[0].time >= s[0].time
  {
    assert forall k | 0 <= k < |r| :: r[k] == if k < n then s[k] else s[k + 1];
    forall f | f in s && f != e ensures f in r {
      var k :| 0 <= k < |s| && s[k] == f;
      assert f == r[if k < n then k else k - 1];
    }
  }

  // The sentry of getExpired: no timer has this address, so lower_bound stops behind all that are due.
  function Sentry(now: int): Entry { Entry(now, UINTPTR_MAX) }

  lemma SentrySplits(s: seq<Entry>, now: int)
    requires Ascending(s) && forall e | e in s :: e.addr < UINTPTR_MAX
    ensures var n := LowerBound(s, Sentry(now));
            forall i | 0 <= i < |s| :: i < n <==> s[i].time <= now
  {
    var n := LowerBound(s, Sentry(now));
    forall i | n <= i < |s| ensures s[i].time > now {
      assert s[n] in s && !Less(s[n], Sentry(now));
      assert i > n ==> Less(s[n], s[i]);
    }
    assert forall i | 0 <= i < n :: s[i] in s && Less(s[i], Sentry(now));
  }

  // ---------------------------------------------------------------------------------------------
  // What each function of the source does
  // ---------------------------------------------------------------------------------------------

  function Max(a: int, b: int): int { if a < b then b else a }

  // howMuchTimeFromNow clamps to 100 microseconds.
  function ResetTimerfd(q: Queue, expiration: int, clock: int): Queue {
    q.(fd := Armed(clock + Max(expiration - clock, 100), clock))
  }

  predicate BecomesEarliest(q: Queue, when: int) { q.timers == [] || when < q.timers[0].time }

  function IdOf(q: Queue, a: Address): ActiveTimer
    requires a in q.heap
  {
    ActiveTimer(a, q.heap[a].sequence)
  }

  function Inserted(q: Queue, a: Address): Queue
    requires a in q.heap
  {
    q.(timers := Put(q.timers, Entry(q.heap[a].expiration, a)), active := q.active + {IdOf(q, a)})
  }

  function Added(q: Queue, a: Address, clock: int): Queue
    requires a in q.heap
  {
    var q' := Inserted(q.(waiting := q.waiting - {a}), a);
    if BecomesEarliest(q, q.heap[a].expiration) then ResetTimerfd(q', q.heap[a].expiration, clock) else q'
  }

  function Cancelled(q: Queue, id: ActiveTimer): Queue
    requires id in q.active ==> id.addr in q.heap
  {
    if id in q.active then
      q.(timers := Erase(q.timers, Entry(q.heap[id.addr].expiration, id.addr)),
         heap := q.heap - {id.addr}, active := q.active - {id})
    else if q.calling then q.(canceling := q.canceling + {id})
    else q
  }

  function WithExpired(q: Queue, now: int): Queue
    requires forall e | e in q.timers :: e.addr < UINTPTR_MAX && e.addr in q.heap
  {
    var n := LowerBound(q.timers, Sentry(now));
    q.(timers := q.timers[n..], expired := q.timers[..n],
       active := q.active - set e | e in q.timers[..n] :: ActiveTimer(e.addr, q.heap[e.addr].sequence))
  }

  // handleRead, up to the callbacks
  function Begun(q: Queue, now: int): Queue
    requires forall e | e in q.timers :: e.addr < UINTPTR_MAX && e.addr in q.heap
  {
    WithExpired(q, now).(fd := if q.fd.Fired? then Disarmed else q.fd, calling := true, canceling := {}, now := now)
  }

  predicate HasExpired(q: Queue) {
    q.expired != [] && q.expired[0].addr < UINTPTR_MAX && q.expired[0].addr in q.heap
  }

  predicate Survives(q: Queue, a: Address)
    requires a in q.heap
  {
    q.heap[a].Repeat() && IdOf(q, a) !in q.canceling
  }

  // The first expired timer, restarted, and ready to be inserted again.
  function Touched(q: Queue): Queue
    requires HasExpired(q)
  {
    var a: Address := q.expired[0].addr;
    q.(expired := q.expired[1..], heap := q.heap[a := q.heap[a].(expiration := q.now + q.heap[a].interval)])
  }

  function Freed(q: Queue): Queue
    requires HasExpired(q)
  {
    q.(expired := q.expired[1..], heap := q.heap - {q.expired[0].addr})
  }

  // reset(): one expired timer
  function RestartedOne(q: Queue): Queue
    requires HasExpired(q)
  {
    var a: Address := q.expired[0].addr;
    if Survives(q, a) then Inserted(Touched(q), a) else Freed(q)
  }

  function Restarted(q: Queue): (r: Queue)
    requires Inv(q) && q.calling
    ensures r.expired == [] && Inv(r) && r.calling
    decreases |q.expired|
  {
    if q.expired == [] then q
    else
      RestartKeepsInv(q);
      Restarted(RestartedOne(q))
  }

  // handleRead, behind the callbacks
  function Ended(q: Queue, clock: int): Queue
    requires Inv(q) && q.calling
  {
    var q' := Restarted(q).(calling := false);
    if q'.timers != [] && q'.timers[0].time > 0 then ResetTimerfd(q', q'.timers[0].time, clock) else q'
  }

  // ---------------------------------------------------------------------------------------------
  // The invariant
  // ---------------------------------------------------------------------------------------------

  /** The timerfd will expire, or has expired, no later than a timer that is due at `time`; a timer due
      within 100 microseconds of the call that armed the timerfd may be that late. */
  predicate Covers(fd: TimerFd, time: int) {
    fd.Fired? || (fd.Armed? && fd.deadline <= Max(time, fd.armedAt + 100))
  }

  ghost predicate AreLive(entries: seq<Entry>, heap: map<Address, Timer>) {
    && Ascending(entries)
    && forall e | e in entries :: e.addr < UINTPTR_MAX && e.addr in heap && heap[e.addr].expiration == e.time
  }

  // Every timer in the heap is in exactly one place: a functor, the queue, or the batch being called.
  ghost predicate NoneLost(q: Queue) {
    forall a: Address ::
      && (a in q.heap <==> a in q.waiting || Scheduled(q, a) || BeingCalled(q, a))
      && !(a in q.waiting && Scheduled(q, a)) && !(a in q.waiting && BeingCalled(q, a))
      && !(Scheduled(q, a) && BeingCalled(q, a))
  }

  ghost predicate Scheduled(q: Queue, a: Address) {
    a in q.heap && Entry(q.heap[a].expiration, a) in q.timers
  }

  ghost predicate BeingCalled(q: Queue, a: Address) {
    a in q.heap && Entry(q.heap[a].expiration, a) in q.expired
  }

  ghost predicate SequencesIdentify(q: Queue) {
    && (forall a | a in q.heap :: q.heap[a].sequence <= q.created)
    && (forall a, b | a in q.heap && b in q.heap && q.heap[a].sequence == q.heap[b].sequence :: a == b)
  }

  ghost predicate Watched(q: Queue) {
    && (!q.calling ==> q.expired == [] && (q.timers != [] ==> Covers(q.fd, q.timers[0].time)))
    && (q.calling ==> q.now >= 0 && (q.timers != [] && q.timers[0].time <= q.now ==> Covers(q.fd, q.timers[0].time)))
  }

  ghost predicate SameTimers(q: Queue) {
    forall id: ActiveTimer ::
      id in q.active <==> Scheduled(q, id.addr) && q.heap[id.addr].sequence == id.sequence
  }

  ghost predicate Inv(q: Queue) {
    && AreLive(q.timers, q.heap) && AreLive(q.expired, q.heap)
    && NoneLost(q) && SameTimers(q) && SequencesIdentify(q) && Watched(q)
  }

  lemma InsertIsLive(q: Queue, a: Address)
    requires Inv(q.(waiting := q.waiting + {a})) && a !in q.waiting
    ensures var r := Inserted(q, a);
            && AreLive(r.timers, q.heap) && AreLive(r.expired, q.heap) && r.heap == q.heap && r.timers != []
            && r.timers[0].time ==
               if BecomesEarliest(q, q.heap[a].expiration) then q.heap[a].expiration else q.timers[0].time
  {
    var e := Entry(q.heap[a].expiration, a);
    NotPlaced(q.(waiting := q.waiting + {a}), a);
    hide Ascending, NoneLost, SameTimers, SequencesIdentify, Watched;
    PutIsAscending(q.timers, e);
    hide Put;
  }

  lemma NotPlaced(q: Queue, a: Address)
    requires NoneLost(q) && a in q.waiting
    ensures a in q.heap && !Scheduled(q, a) && !BeingCalled(q, a) && Entry(q.heap[a].expiration, a) !in q.timers
  {
  }

  lemma InsertIsNotLost(q: Queue, a: Address)
    requires Inv(q.(waiting := q.waiting + {a})) && a !in q.waiting
    ensures NoneLost(Inserted(q, a)) && SameTimers(Inserted(q, a))
  {
    hide Scheduled, BeingCalled, AreLive, SequencesIdentify, Watched, Put;
    NotPlaced(q.(waiting := q.waiting + {a}), a);
    InsertPlaces(q, a);
  }

  lemma InsertPlaces(q: Queue, a: Address)
    requires a in q.heap
    ensures var w, r := q.(waiting := q.waiting + {a}), Inserted(q, a);
            forall b: Address :: Scheduled(r, b) == (Scheduled(w, b) || b == a) && BeingCalled(r, b) == BeingCalled(w, b)
  {
    PutMembers(q.timers, Entry(q.heap[a].expiration, a));
    hide Put;
  }

  lemma InsertKeepsInv(q: Queue, a: Address)
    requires Inv(q.(waiting := q.waiting + {a})) && a !in q.waiting
    requires BecomesEarliest(q, q.heap[a].expiration) ==> q.calling && q.heap[a].expiration > q.now
    ensures Inv(Inserted(q, a))
  {
    InsertIsLive(q, a);
    InsertIsNotLost(q, a);
    hide AreLive, NoneLost, SameTimers, Put;
  }

  lemma AddKeepsInv(q: Queue, a: Address, clock: int)
    requires Inv(q) && a in q.waiting
    ensures Inv(Added(q, a, clock))
  {
    var w := q.(waiting := q.waiting - {a});
    assert w.waiting + {a} == q.waiting;
    InsertIsLive(w, a);
    InsertIsNotLost(w, a);
    hide AreLive, NoneLost, SameTimers, Inserted;
    SamePlaces(Inserted(w, a), Added(q, a, clock));
    AddIsWatched(q, w, a, clock);
  }

  lemma AddIsWatched(q: Queue, w: Queue, a: Address, clock: int)
    requires a in q.heap && w == q.(waiting := q.waiting - {a}) && Watched(q)
    requires var r := Inserted(w, a);
             r.timers != [] && r.timers[0].time ==
                               if BecomesEarliest(q, q.heap[a].expiration) then q.heap[a].expiration else q.timers[0].time
    ensures Watched(Added(q, a, clock))
  {
    hide Put;
  }

  // Neither the timerfd nor the ids cancelled while calling say where a timer is.
  lemma SamePlaces(q: Queue, q': Queue)
    requires NoneLost(q) && SameTimers(q) && q' == q.(fd := q'.fd, canceling := q'.canceling)
    ensures NoneLost(q') && SameTimers(q')
  {
    forall a: Address ensures Scheduled(q', a) == Scheduled(q, a) && BeingCalled(q', a) == BeingCalled(q, a) {}
  }

  // q' is q without the scheduled timer at id.addr.
  ghost predicate Removed(q: Queue, id: ActiveTimer, q': Queue) {
    && Scheduled(q, id.addr) && q.heap[id.addr].sequence == id.sequence
    && q' == q.(timers := q'.timers, heap := q.heap - {id.addr}, active := q.active - {id})
    && Ascending(q'.timers)
    && (forall e :: e in q'.timers <==> e in q.timers && e != Entry(q.heap[id.addr].expiration, id.addr))
    && (q'.timers != [] ==> q.timers != [] && q'.timers[0].time >= q.timers[0].time)
  }

  lemma CancelRemoves(q: Queue, id: ActiveTimer)
    requires Inv(q) && id in q.active
    ensures Removed(q, id, Cancelled(q, id))
  {
    hide NoneLost, SequencesIdentify, Watched;
    EraseIsAscending(q.timers, Entry(q.heap[id.addr].expiration, id.addr));
    hide Erase, Ascending;
  }

  lemma RemovedIsLive(q: Queue, id: ActiveTimer, q': Queue)
    requires AreLive(q.timers, q.heap) && AreLive(q.expired, q.heap) && NoneLost(q) && Removed(q, id, q')
    ensures AreLive(q'.timers, q'.heap) && AreLive(q'.expired, q'.heap)
  {
    hide Ascending;
    assert !BeingCalled(q, id.addr);
  }

  lemma RemovedIsNotLost(q: Queue, id: ActiveTimer, q': Queue)
    requires NoneLost(q) && SameTimers(q) && Removed(q, id, q')
    ensures NoneLost(q') && SameTimers(q')
  {
    hide Ascending;
    forall a: Address ensures a != id.addr ==> Scheduled(q', a) == Scheduled(q, a) && BeingCalled(q', a) == BeingCalled(q, a) {}
    assert !Scheduled(q', id.addr) && !BeingCalled(q', id.addr) && id.addr !in q'.waiting;
  }

  lemma CancelKeepsInv(q: Queue, id: ActiveTimer)
    requires Inv(q)
    ensures Inv(Cancelled(q, id))
  {
    hide Inv, Cancelled;
    if id in q.active {
      CancelRemoves(q, id);
      RemovedKeepsInv(q, id, Cancelled(q, id));
    } else {
      CancelAbsent(q, id);
      KeepsInv(q, Cancelled(q, id));
    }
  }

  lemma RemovedKeepsInv(q: Queue, id: ActiveTimer, q': Queue)
    requires Inv(q) && Removed(q, id, q')
    ensures Inv(q')
  {
    hide AreLive, NoneLost, SameTimers;
    RemovedIsLive(q, id, q');
    RemovedIsNotLost(q, id, q');
  }

  lemma CancelAbsent(q: Queue, id: ActiveTimer)
    requires id !in q.active
    ensures Cancelled(q, id) == q.(canceling := Cancelled(q, id).canceling)
  {
  }

  // What a step that touches no timer keeps.
  lemma KeepsInv(q: Queue, q': Queue)
    requires Inv(q) && q' == q.(canceling := q'.canceling)
    ensures Inv(q')
  {
    forall a: Address ensures Scheduled(q', a) == Scheduled(q, a) && BeingCalled(q', a) == BeingCalled(q, a) {}
  }

  /** getExpired takes exactly the timers due at or before `now`, in the order of their expiration. */
  lemma ExpiredAreExactlyTheDue(q: Queue, now: int)
    requires AreLive(q.timers, q.heap)
    ensures var q' := WithExpired(q, now);
            && q'.expired + q'.timers == q.timers
            && (forall e | e in q'.expired :: e.time <= now) && (forall e | e in q'.timers :: e.time > now)
            && Ascending(q'.expired) && Ascending(q'.timers)
  {
    SentrySplits(q.timers, now);
    hide LowerBound;
  }

  lemma BegunIsNotLost(q: Queue, now: int)
    requires Inv(q) && q.expired == []
    ensures NoneLost(Begun(q, now)) && SameTimers(Begun(q, now))
  {
    hide Begun, AreLive, SequencesIdentify, Watched, Scheduled, BeingCalled;
    BegunParts(q, now);
    BegunPlaces(q, now);
  }

  lemma BegunParts(q: Queue, now: int)
    requires AreLive(q.timers, q.heap) && SameTimers(q)
    ensures var r := Begun(q, now);
            && r.heap == q.heap && r.waiting == q.waiting
            && forall id: ActiveTimer :: id in r.active <==>
                 Scheduled(q, id.addr) && !BeingCalled(r, id.addr) && q.heap[id.addr].sequence == id.sequence
  {
    hide LowerBound, Ascending, Sentry;
  }

  lemma BegunPlaces(q: Queue, now: int)
    requires AreLive(q.timers, q.heap) && q.expired == []
    ensures var r := Begun(q, now);
            forall a: Address ::
              && !BeingCalled(q, a) && (Scheduled(q, a) <==> Scheduled(r, a) || BeingCalled(r, a))
              && !(Scheduled(r, a) && BeingCalled(r, a))
  {
    var r := Begun(q, now);
    ExpiredAreExactlyTheDue(q, now);
    hide LowerBound, Ascending, Sentry;
    assert forall e :: e in q.timers <==> e in r.expired || e in r.timers;
  }

  lemma BeginKeepsInv(q: Queue, now: int)
    requires Inv(q) && !q.calling && now >= 0
    ensures Inv(Begun(q, now))
  {
    BegunIsNotLost(q, now);
    ExpiredAreExactlyTheDue(q, now);
    hide LowerBound, NoneLost, SameTimers, Ascending;
  }

  lemma FirstExpired(q: Queue)
    requires AreLive(q.expired, q.heap) && q.expired != []
    ensures q.expired[0].addr < UINTPTR_MAX && q.expired[0].addr in q.heap && BeingCalled(q, q.expired[0].addr)
    ensures AreLive(q.expired[1..], q.heap)
    ensures forall e :: e in q.expired[1..] <==> e in q.expired && e.addr != q.expired[0].addr
  {
    var first, rest := q.expired[0], q.expired[1..];
    assert q.expired == [first] + rest;
    forall e | e in rest ensures e.addr != first.addr {
      var k :| 0 <= k < |rest| && rest[k] == e;
      assert rest[k] == q.expired[k + 1] && Less(q.expired[0], q.expired[k + 1]);
    }
  }

  lemma FirstIsThere(q: Queue)
    requires Inv(q) && q.expired != []
    ensures HasExpired(q)
  {
    FirstExpired(q);
  }

  // q' is q without the first expired timer, which is freed, or else rewritten and waiting to be inserted.
  ghost predicate TakenOff(q: Queue, a: Address, q': Queue) {
    && q.expired != [] && q.expired[0].addr == a
    && (|| q' == q.(expired := q.expired[1..], heap := q.heap - {a})
        || (&& a in q'.heap && a in q.heap && q'.heap[a].sequence == q.heap[a].sequence
            && q' == q.(expired := q.expired[1..], heap := q.heap[a := q'.heap[a]], waiting := q.waiting + {a})))
  }

  // Where the timer was, and where it and the others are now.
  lemma TakenOffPlaces(q: Queue, a: Address, q': Queue)
    requires AreLive(q.expired, q.heap) && NoneLost(q) && TakenOff(q, a, q')
    ensures a in q.heap && a !in q.waiting && BeingCalled(q, a) && !Scheduled(q, a)
    ensures AreLive(q.expired[1..], q.heap) && forall e | e in q'.expired :: e.addr != a
    ensures a in q'.heap ==> !BeingCalled(q', a)
    ensures forall b: Address | b != a :: Scheduled(q', b) == Scheduled(q, b) && BeingCalled(q', b) == BeingCalled(q, b)
  {
    FirstExpired(q);
    hide AreLive;
  }

  lemma TakenOffIsLive(q: Queue, a: Address, q': Queue)
    requires Inv(q) && TakenOff(q, a, q')
    ensures AreLive(q'.timers, q'.heap) && AreLive(q'.expired, q'.heap)
    ensures a !in q.waiting && !Scheduled(q, a) && a in q.heap
  {
    hide Ascending, Watched, SameTimers, SequencesIdentify, NoneLost, BeingCalled;
    TakenOffPlaces(q, a, q');
  }

  lemma TakenOffIsNotLost(q: Queue, a: Address, q': Queue)
    requires Inv(q) && TakenOff(q, a, q')
    ensures NoneLost(q') && SameTimers(q')
  {
    hide AreLive, SequencesIdentify, Watched, Scheduled, BeingCalled;
    TakenOffPlaces(q, a, q');
    TakenOffUnscheduled(q, a, q');
  }

  lemma TakenOffUnscheduled(q: Queue, a: Address, q': Queue)
    requires Inv(q) && TakenOff(q, a, q')
    ensures !Scheduled(q', a) && !BeingCalled(q', a)
  {
    hide Ascending, Watched, SameTimers, SequencesIdentify;
    TakenOffPlaces(q, a, q');
    hide NoneLost;
  }

  lemma TakenOffKeepsInv(q: Queue, a: Address, q': Queue)
    requires Inv(q) && q.calling && TakenOff(q, a, q')
    ensures Inv(q')
  {
    TakenOffIsLive(q, a, q');
    TakenOffIsNotLost(q, a, q');
    hide AreLive, NoneLost, SameTimers;
  }

  lemma TouchedKeepsInv(q: Queue, a: Address)
    requires Inv(q) && q.calling && HasExpired(q) && a == q.expired[0].addr
    ensures a !in q.waiting && Inv(Touched(q).(waiting := q.waiting + {a}))
  {
    TakenOffIsLive(q, a, Freed(q));
    TakenOffKeepsInv(q, a, Touched(q).(waiting := q.waiting + {a}));
  }

  lemma FreedKeepsInv(q: Queue)
    requires Inv(q) && q.calling && HasExpired(q)
    ensures Inv(Freed(q))
  {
    TakenOffKeepsInv(q, q.expired[0].addr, Freed(q));
  }

  lemma RestartKeepsInv(q: Queue)
    requires Inv(q) && q.calling && q.expired != []
    ensures HasExpired(q) && Inv(RestartedOne(q)) && RestartedOne(q).calling
  {
    FirstExpired(q);
    hide Inv;
    var a: Address := q.expired[0].addr;
    if Survives(q, a) {
      TouchedKeepsInv(q, a);
      InsertKeepsInv(Touched(q), a);
    } else {
      FreedKeepsInv(q);
    }
  }

  lemma EndedPlaces(r: Queue, q': Queue)
    requires NoneLost(r) && SameTimers(r) && q' == r.(calling := false, fd := q'.fd)
    ensures NoneLost(q') && SameTimers(q')
  {
    forall a: Address ensures Scheduled(q', a) == Scheduled(r, a) && BeingCalled(q', a) == BeingCalled(r, a) {}
  }

  lemma EndKeepsInv(q: Queue, clock: int)
    requires Inv(q) && q.calling
    ensures Inv(Ended(q, clock)) && !Ended(q, clock).calling
  {
    hide Restarted, AreLive, NoneLost, SameTimers;
    var r := Restarted(q);
    EndedPlaces(r, Ended(q, clock));
  }

  lemma NewPlaces(q: Queue, a: Address, when: int, interval: int)
    requires AreLive(q.timers, q.heap) && AreLive(q.expired, q.heap) && a !in q.heap
    ensures var q' := Created(q, a, when, interval);
            && AreLive(q'.timers, q'.heap) && AreLive(q'.expired, q'.heap)
            && !Scheduled(q, a) && !BeingCalled(q, a) && !Scheduled(q', a) && !BeingCalled(q', a)
            && forall b: Address | b != a :: Scheduled(q', b) == Scheduled(q, b) && BeingCalled(q', b) == BeingCalled(q, b)
  {
    hide Ascending;
    forall e | e in q.timers || e in q.expired ensures e.addr != a {}
  }

  lemma NewKeepsInv(q: Queue, a: Address, when: int, interval: int)
    requires Inv(q) && a !in q.heap
    ensures Inv(Created(q, a, when, interval))
  {
    hide AreLive, Scheduled, BeingCalled, Covers;
    NewPlaces(q, a, when, interval);
  }

  // ---------------------------------------------------------------------------------------------
  // Runs
  // ---------------------------------------------------------------------------------------------

  // addTimer, before its functor runs: `new Timer`, at an address of the allocator's choice.
  function Created(q: Queue, a: Address, when: int, interval: int): Queue {
    q.(heap := q.heap[a := Timer(when, interval, q.created + 1)], created := q.created + 1, waiting := q.waiting + {a})
  }

  /** What can happen to a queue.  Between Begin and End the callbacks run; they, and other threads, may
      create, add and cancel timers. */
  datatype Event =
    | New(addr: Address, when: int, interval: int)
    | Add(addr: Address, clock: int)
    | Cancel(id: ActiveTimer)
    | Expire
    | Begin(now: int)
    | End(clock: int)

  // The allocator hands out free addresses, and the clock is past the epoch.
  ghost predicate Legal(q: Queue, e: Event) {
    match e
    case New(a, _, _) => a !in q.heap
    case Add(a, _) => a in q.waiting
    case Cancel(_) => true
    case Expire => q.fd.Armed?
    case Begin(now) => !q.calling && now >= 0
    case End(_) => q.calling
  }

  ghost function Next(q: Queue, e: Event): Queue
    requires Inv(q) && Legal(q, e)
  {
    match e
    case New(a, when, interval) => Created(q, a, when, interval)
    case Add(a, clock) => Added(q, a, clock)
    case Cancel(id) => Cancelled(q, id)
    case Expire => q.(fd := Fired)
    case Begin(now) => Begun(q, now)
    case End(clock) => Ended(q, clock)
  }

  lemma NextKeepsInv(q: Queue, e: Event)
    requires Inv(q) && Legal(q, e)
    ensures Inv(Next(q, e))
  {
    hide Created, Added, Cancelled, Begun, Ended, AreLive, NoneLost, SameTimers, SequencesIdentify;
    match e
    case New(a, when, interval) => NewKeepsInv(q, a, when, interval);
    case Add(a, clock) => AddKeepsInv(q, a, clock);
    case Cancel(id) => CancelKeepsInv(q, id);
    case Expire => ExpireKeepsInv(q);
    case Begin(now) => BeginKeepsInv(q, now);
    case End(clock) => EndKeepsInv(q, clock);
  }

  lemma ExpireKeepsInv(q: Queue)
    requires Inv(q)
    ensures Inv(q.(fd := Fired))
  {
    var q' := q.(fd := Fired);
    forall a: Address ensures Scheduled(q', a) == Scheduled(q, a) && BeingCalled(q', a) == BeingCalled(q, a) {}
  }

  ghost predicate LegalRun(q: Queue, events: seq<Event>)
    requires Inv(q)
    decreases |events|
  {
    events == [] || (Legal(q, events[0]) && (NextKeepsInv(q, events[0]); LegalRun(Next(q, events[0]), events[1..])))
  }

  ghost function Run(q: Queue, events: seq<Event>): (r: Queue)
    requires Inv(q) && LegalRun(q, events)
    ensures Inv(r)
    decreases |events|
  {
    if events == [] then q
    else
      NextKeepsInv(q, events[0]);
      Run(Next(q, events[0]), events[1..])
  }

  /** In every reachable state the two sets hold the same timers; and whenever handleRead is not running,
      a queue that is not empty has a timerfd that has expired or expires no later than its earliest
      timer, up to the clamp. */
  lemma EveryRunIsWatched(events: seq<Event>)
    requires LegalRun(Empty, events)
    ensures var q := Run(Empty, events);
            && q.active == (set e | e in q.timers && e.addr < UINTPTR_MAX && e.addr in q.heap ::
                              ActiveTimer(e.addr, q.heap[e.addr].sequence))
            && |q.active| == |q.timers|
            && (!q.calling && q.timers != [] ==>
                  Covers(q.fd, q.timers[0].time) && forall e | e in q.timers :: q.timers[0].time <= e.time)
  {
    var q := Run(Empty, events);
    SameSize(q, q.timers);
    hide Run, LegalRun, NoneLost, SequencesIdentify;
  }

  lemma SameSize(q: Queue, entries: seq<Entry>)
    requires AreLive(entries, q.heap)
    ensures |set e | e in entries && e.addr < UINTPTR_MAX && e.addr in q.heap ::
               ActiveTimer(e.addr, q.heap[e.addr].sequence)| == |entries|
  {
    var n := |entries|;
    if n > 0 {
      var last, rest := entries[n - 1], entries[..n - 1];
      SameSize(q, rest);
      assert entries == rest + [last];
      var ids := set e | e in rest && e.addr < UINTPTR_MAX && e.addr in q.heap :: ActiveTimer(e.addr, q.heap[e.addr].sequence);
      var id := ActiveTimer(last.addr, q.heap[last.addr].sequence);
      assert id !in ids;
      assert (set e | e in entries && e.addr < UINTPTR_MAX && e.addr in q.heap ::
                ActiveTimer(e.addr, q.heap[e.addr].sequence)) == ids + {id};
    }
  }

  // ---------------------------------------------------------------------------------------------
  // What becomes of a batch
  // ---------------------------------------------------------------------------------------------

  ghost predicate SettledTimer(q: Queue, r: Queue, a: Address) {
    && (a in r.heap <==>
          a in q.heap && (BeingCalled(q, a) ==> q.heap[a].interval > 0 && ActiveTimer(a, q.heap[a].sequence) !in q.canceling))
    && (a in r.heap ==>
          r.heap[a] == if BeingCalled(q, a)
                       then Timer(q.now + q.heap[a].interval, q.heap[a].interval, q.heap[a].sequence) else q.heap[a])
  }

  lemma OneSettled(q: Queue, a: Address)
    requires Inv(q) && q.calling && q.expired != []
    ensures HasExpired(q)
    ensures var r := RestartedOne(q);
            && r.canceling == q.canceling && r.now == q.now && r.waiting == q.waiting && r.created == q.created
            && |r.expired| < |q.expired|
            && if a == q.expired[0].addr then SettledTimer(q, r, a) && !BeingCalled(r, a)
               else (a in r.heap <==> a in q.heap) && (a in r.heap ==> r.heap[a] == q.heap[a])
                    && (BeingCalled(r, a) <==> BeingCalled(q, a))
  {
    FirstExpired(q);
    hide Ascending, NoneLost, SameTimers, SequencesIdentify, Watched, Put;
  }

  lemma {:induction false} BatchSettled(q: Queue, a: Address)
    requires Inv(q) && q.calling
    ensures var r := Restarted(q); SettledTimer(q, r, a) && r.waiting == q.waiting && r.created == q.created
    decreases |q.expired|
  {
    hide Inv, RestartedOne;
    if q.expired == [] {
      NoneCalled(q, a);
    } else {
      RestartKeepsInv(q);
      OneSettled(q, a);
      BatchSettled(RestartedOne(q), a);
    }
  }

  lemma NoneCalled(q: Queue, a: Address)
    requires q.expired == []
    ensures !BeingCalled(q, a)
  {
  }

  /** When handleRead is done, a timer of the batch is back in the queue, one interval from when the
      batch was taken, if it repeats and none of the callbacks cancelled it; otherwise it is freed.
      Every other timer is what it was. */
  lemma BatchIsSettled(q: Queue, clock: int, a: Address)
    requires Inv(q) && q.calling
    ensures var r := Ended(q, clock);
            && SettledTimer(q, r, a)
            && (Scheduled(r, a) <==> a in r.heap && a !in q.waiting)
            && r.waiting == q.waiting && r.created == q.created
  {
    BatchSettled(q, a);
    EndKeepsInv(q, clock);
    var r := Ended(q, clock);
    hide Restarted, SameTimers, AreLive, SequencesIdentify, SettledTimer;
    NoneCalled(r, a);
    assert r.heap == Restarted(q).heap;
    SettledSame(q, Restarted(q), r, a);
  }

  lemma SettledSame(q: Queue, r: Queue, r': Queue, a: Address)
    requires SettledTimer(q, r, a) && r'.heap == r.heap
    ensures SettledTimer(q, r', a)
  {
  }

  // ---------------------------------------------------------------------------------------------
  // When a timer is called, and when the timerfd is set
  // ---------------------------------------------------------------------------------------------

  /** A new timer is what was asked for, and once added it is in the first batch taken at or after its time,
      and in no batch taken before. */
  lemma CalledWhenDue(q: Queue, a: Address, when: int, interval: int, clock: int, now: int)
    requires Inv(q) && a !in q.heap && !q.calling && now >= 0
    ensures Inv(Created(q, a, when, interval)) && a in Created(q, a, when, interval).waiting
    ensures var q' := Added(Created(q, a, when, interval), a, clock);
            && Inv(q') && a in q'.heap && q'.heap[a] == Timer(when, interval, q.created + 1) && Scheduled(q', a)
            && var b := Begun(q', now);
               (Entry(when, a) in b.expired <==> when <= now) && (Entry(when, a) in b.timers <==> when > now)
  {
    hide Inv, LowerBound, Put, Sentry, Ascending;
    NewKeepsInv(q, a, when, interval);
    var created := Created(q, a, when, interval);
    AddKeepsInv(created, a, clock);
    var q' := Added(created, a, clock);
    PutMembers(created.timers, Entry(when, a));
    TimersAreLive(q');
    ExpiredAreExactlyTheDue(q', now);
    assert Entry(when, a) in q'.timers;
    assert WithExpired(q', now).expired + WithExpired(q', now).timers == q'.timers;
  }

  lemma TimersAreLive(q: Queue)
    requires Inv(q)
    ensures AreLive(q.timers, q.heap)
  {
  }

  /** Adding sets the timerfd if and only if the timer is the earliest: to its time, or 100 microseconds from
      now if that is later. */
  lemma AddArms(q: Queue, a: Address, clock: int)
    requires Inv(q) && a in q.waiting
    ensures a in q.heap
    ensures var when := q.heap[a].expiration;
            Added(q, a, clock).fd ==
            if (forall e | e in q.timers :: when < e.time) then Armed(if when >= clock + 100 then when else clock + 100, clock) else q.fd
  {
    hide Put;
    var when := q.heap[a].expiration;
    if q.timers != [] {
      assert q.timers[0] in q.timers;
      forall e | e in q.timers ensures q.timers[0].time <= e.time {
        var k :| 0 <= k < |q.timers| && q.timers[k] == e;
        assert k > 0 ==> Less(q.timers[0], q.timers[k]);
      }
    }
  }

  /** When a batch is done with, the timerfd is set for the earliest timer there is, in the same way. */
  lemma EndArms(q: Queue, clock: int)
    requires Inv(q) && q.calling
    ensures var r := Ended(q, clock);
            r.fd == if r.timers != [] && r.timers[0].time > 0
                    then Armed(if r.timers[0].time >= clock + 100 then r.timers[0].time else clock + 100, clock) else q.fd
  {
    hide Inv, Restarted;
    RestartKeepsFd(q);
  }

  lemma {:induction false} RestartKeepsFd(q: Queue)
    requires Inv(q) && q.calling
    ensures Restarted(q).fd == q.fd
    decreases |q.expired|
  {
    hide Inv, Put, Survives;
    if q.expired != [] {
      RestartKeepsInv(q);
      RestartKeepsFd(RestartedOne(q));
    }
  }

  /** A batch whose callbacks cancel nothing: a timer that was due is back in the queue, one interval after the
      batch was taken, if it repeats, and gone if not, whatever was cancelled before; a timer that was not due
      waits as it did. */
  lemma BatchWithoutCancels(q: Queue, now: int, clock: int, a: Address)
    requires Inv(q) && !q.calling && now >= 0 && Scheduled(q, a)
    ensures Inv(Begun(q, now)) && Begun(q, now).calling
    ensures var r, timer := Ended(Begun(q, now), clock), q.heap[a];
            if timer.expiration > now then a in r.heap && r.heap[a] == timer && Scheduled(r, a)
            else if timer.interval > 0 then
              a in r.heap && r.heap[a] == Timer(now + timer.interval, timer.interval, timer.sequence) && Scheduled(r, a)
            else a !in r.heap
  {
    hide LowerBound, Sentry, Ascending, Restarted, NoneLost, SameTimers, SequencesIdentify, Watched, Ended;
    BeginKeepsInv(q, now);
    var b := Begun(q, now);
    NotWaiting(q, a);
    ExpiredAreExactlyTheDue(q, now);
    var e := Entry(q.heap[a].expiration, a);
    assert e in q.timers && WithExpired(q, now).expired + WithExpired(q, now).timers == q.timers;
    BatchIsSettled(b, clock, a);
  }

  lemma NotWaiting(q: Queue, a: Address)
    requires NoneLost(q) && Scheduled(q, a)
    ensures a !in q.waiting
  {
  }

  // ---------------------------------------------------------------------------------------------
  // Cancelling
  // ---------------------------------------------------------------------------------------------

  /** No timer with this sequence number will be scheduled again: the one there may be is being called,
      and was cancelled meanwhile. */
  ghost predicate Doomed(q: Queue, sequence: nat) {
    && sequence <= q.created
    && forall a: Address | a in q.heap && q.heap[a].sequence == sequence ::
         BeingCalled(q, a) && ActiveTimer(a, sequence) in q.canceling
  }

  /** Cancelling a timer dooms it, unless its addTimerInLoop has yet to run: then the call has no effect. */
  lemma CancelDoomsIffAdded(q: Queue, a: Address)
    requires Inv(q) && a in q.heap
    ensures Doomed(Cancelled(q, IdOf(q, a)), q.heap[a].sequence) <==> a !in q.waiting
    ensures a in q.waiting && !q.calling ==> Cancelled(q, IdOf(q, a)) == q
  {
    var id := IdOf(q, a);
    var q' := Cancelled(q, id);
    hide AreLive, Ascending, Erase, Put, Restarted;
    if Scheduled(q, a) {
      assert id in q.active && a !in q'.heap && q'.created == q.created;
      assert forall b | b in q'.heap :: q'.heap[b].sequence != q.heap[a].sequence;
    } else {
      assert id !in q.active && q'.heap == q.heap;
      assert BeingCalled(q', a) == BeingCalled(q, a);
    }
  }

  lemma DoomedStays(q: Queue, e: Event, sequence: nat)
    requires Inv(q) && Legal(q, e) && Doomed(q, sequence)
    ensures Doomed(Next(q, e), sequence)
  {
    var q' := Next(q, e);
    match e
    case End(clock) =>
      BatchIsSettled(q, clock, 0);
      forall a: Address | a in q'.heap ensures q'.heap[a].sequence != sequence { BatchIsSettled(q, clock, a); }
    case Begin(now) =>
      forall a: Address | a in q.heap ensures q.heap[a].sequence != sequence { NoneCalled(q, a); }
    case Add(a, clock) => StillCalled(q, q');
    case Cancel(id) => CancelledOrNot(q, id, sequence);
    case New(a, when, interval) => StillCalled(q, q');
    case Expire => StillCalled(q, q');
  }

  lemma StillCalled(q: Queue, q': Queue)
    requires q'.expired == q.expired && forall a | a in q.heap :: a in q'.heap && q'.heap[a] == q.heap[a]
    ensures forall a: Address | a in q.heap :: BeingCalled(q', a) == BeingCalled(q, a)
  {
  }

  lemma CancelledOrNot(q: Queue, id: ActiveTimer, sequence: nat)
    requires Inv(q) && Doomed(q, sequence)
    ensures Doomed(Cancelled(q, id), sequence)
  {
    var q' := Cancelled(q, id);
    hide AreLive, NoneLost, SequencesIdentify, Watched, SameTimers, Erase;
    forall a: Address | a in q'.heap ensures BeingCalled(q', a) == BeingCalled(q, a) {}
  }

  /** A cancelled timer is never rescheduled, and so never called again, in any run, even when its
      address is reused; nor does a freed timer come back to be freed twice. */
  lemma {:induction false} DoomedForGood(q: Queue, events: seq<Event>, sequence: nat)
    requires Inv(q) && LegalRun(q, events) && Doomed(q, sequence)
    ensures var r := Run(q, events);
            Doomed(r, sequence) && forall id | id in r.active :: id.sequence != sequence
    decreases |events|
  {
    hide Next, Legal;
    if events == [] {
      DoomedIsNotScheduled(q, sequence);
    } else {
      hide Inv, Doomed;
      NextKeepsInv(q, events[0]);
      DoomedStays(q, events[0], sequence);
      DoomedForGood(Next(q, events[0]), events[1..], sequence);
    }
  }

  lemma DoomedIsNotScheduled(q: Queue, sequence: nat)
    requires Inv(q) && Doomed(q, sequence)
    ensures forall id | id in q.active :: id.sequence != sequence
  {
    hide AreLive, SequencesIdentify, Watched;
  }

  ghost predicate Live(q: Queue, sequence: nat) { exists a: Address :: a in q.heap && q.heap[a].sequence == sequence }

  /** Freeing takes a live timer away, and a sequence number is never live again afterwards: no timer is
      freed twice. */
  lemma {:induction false} FreedForGood(q: Queue, events: seq<Event>, sequence: nat)
    requires Inv(q) && LegalRun(q, events) && sequence <= q.created && !Live(q, sequence)
    ensures !Live(Run(q, events), sequence)
    decreases |events|
  {
    if events != [] {
      NextKeepsInv(q, events[0]);
      NotReborn(q, events[0], sequence);
      hide Next, Legal, Live, Inv;
      FreedForGood(Next(q, events[0]), events[1..], sequence);
    }
  }

  lemma NotReborn(q: Queue, e: Event, sequence: nat)
    requires Inv(q) && Legal(q, e) && sequence <= q.created && !Live(q, sequence)
    ensures !Live(Next(q, e), sequence) && sequence <= Next(q, e).created
  {
    assert Doomed(q, sequence);
    DoomedStays(q, e, sequence);
    var q' := Next(q, e);
    forall a: Address | a in q'.heap ensures q'.heap[a].sequence != sequence {
      if e.End? { BatchIsSettled(q, e.clock, a); }
    }
  }

  /** Cancelling one timer changes nothing for another, not even for one that was given the address of a
      timer the caller still has the id of. */
  lemma OthersUntouched(q: Queue, id: ActiveTimer, a: Address)
    requires Inv(q) && a in q.heap && IdOf(q, a) != id
    ensures var q' := Cancelled(q, id);
            && a in q'.heap && q'.heap[a] == q.heap[a]
            && (Scheduled(q', a) <==> Scheduled(q, a)) && (BeingCalled(q', a) <==> BeingCalled(q, a))
            && (a in q'.waiting <==> a in q.waiting) && (Survives(q', a) <==> Survives(q, a))
  {
    if id in q.active { CancelRemoves(q, id); }
    hide Erase, Ascending;
  }

  // ---------------------------------------------------------------------------------------------
  // The class
  // ---------------------------------------------------------------------------------------------

  /** `heap`, `created` and `waiting` belong to the allocator, the Timer class and the loop; `expired` and
      `now` are the locals of HandleRead.  Each method does what the functions above say. */
  class TimerQueue {
    var heap: map<Address, Timer>
    var created: nat
    var waiting: set<Address>
    var timers: seq<Entry>
    var activeTimers: set<ActiveTimer>
    var cancelingTimers: set<ActiveTimer>
    var callingExpiredTimers: bool
    var expired: seq<Entry>
    var now: int
    var timerfd: TimerFd

    function Here(): Queue reads this {
      Queue(heap, created, waiting, timers, activeTimers, cancelingTimers, callingExpiredTimers, expired, now, timerfd)
    }

    constructor ()
      ensures Here() == Empty
    {
      heap, created, waiting, timers, activeTimers, cancelingTimers := map[], 0, {}, [], {}, {};
      callingExpiredTimers, expired, now, timerfd := false, [], 0, Disarmed;
    }

    method AddTimer(addr: Address, when: int, interval: int) returns (id: ActiveTimer)
      requires Inv(Here()) && addr !in heap
      modifies this
      ensures Here() == Created(old(Here()), addr, when, interval) && Inv(Here()) && id == IdOf(Here(), addr)
    {
      hide Inv;
      NewKeepsInv(Here(), addr, when, interval);
      created := created + 1;
      heap := heap[addr := Timer(when, interval, created)];
      waiting := waiting + {addr};
      id := ActiveTimer(addr, created);
    }

    method Reset(expiration: int, clock: int)
      modifies this`timerfd
      ensures Here() == ResetTimerfd(old(Here()), expiration, clock)
    {
      var microseconds := expiration - clock;
      if microseconds < 100 { microseconds := 100; }
      timerfd := Armed(clock + microseconds, clock);
    }

    method Insert(addr: Address) returns (earliestChanged: bool)
      requires addr in heap
      requires Entry(heap[addr].expiration, addr) !in timers && IdOf(Here(), addr) !in activeTimers
      modifies this`timers, this`activeTimers
      ensures Here() == Inserted(old(Here()), addr)
      ensures earliestChanged == BecomesEarliest(old(Here()), heap[addr].expiration)
    {
      earliestChanged := false;
      var when := heap[addr].expiration;
      if timers == [] || when < timers[0].time { earliestChanged := true; }
      timers := Put(timers, Entry(when, addr));
      activeTimers := activeTimers + {ActiveTimer(addr, heap[addr].sequence)};
    }

    method AddTimerInLoop(addr: Address, clock: int)
      requires Inv(Here()) && addr in waiting
      modifies this
      ensures Here() == Added(old(Here()), addr, clock) && Inv(Here())
    {
      AddKeepsInv(Here(), addr, clock);
      assert Entry(heap[addr].expiration, addr) !in timers && IdOf(Here(), addr) !in activeTimers;
      hide Inv, Inserted;
      waiting := waiting - {addr};
      var earliestChanged := Insert(addr);
      if earliestChanged { Reset(heap[addr].expiration, clock); }
    }

    method CancelInLoop(id: ActiveTimer)
      requires Inv(Here())
      modifies this
      ensures Here() == Cancelled(old(Here()), id) && Inv(Here())
    {
      assert id in activeTimers ==> Entry(heap[id.addr].expiration, id.addr) in timers;
      CancelKeepsInv(Here(), id);
      if id in activeTimers {
        EraseIsAscending(timers, Entry(heap[id.addr].expiration, id.addr));
        hide Inv, Erase;
        ghost var n := |timers|;
        timers := Erase(timers, Entry(heap[id.addr].expiration, id.addr));
        assert |timers| == n - 1;
        heap := heap - {id.addr};
        activeTimers := activeTimers - {id};
      } else if callingExpiredTimers {
        cancelingTimers := cancelingTimers + {id};
      }
    }

    // The expired timers leave both sets; the assertion is the source's n == 1.
    method GetExpired(time: int)
      requires AreLive(timers, heap) && SameTimers(Here())
      modifies this`timers, this`activeTimers, this`expired
      ensures Here() == WithExpired(old(Here()), time)
    {
      ghost var q := Here();
      ExpiredAreScheduled(q, time);
      var n := LowerBound(timers, Sentry(time));
      ghost var rest := timers[n..];
      expired := timers[..n];
      timers := timers[n..];
      var i := 0;
      hide AreLive, NoneLost, SameTimers, SequencesIdentify, Watched, LowerBound, Ascending, IdsOf;
      while i < |expired|
        invariant 0 <= i <= |expired| && expired == WithExpired(q, time).expired && timers == rest
        invariant activeTimers == q.active - IdsOf(q, expired[..i])
      {
        OneMoreId(q, expired, i);
        var timer := ActiveTimer(expired[i].addr, heap[expired[i].addr].sequence);
        assert timer in activeTimers;
        activeTimers := activeTimers - {timer};
        i := i + 1;
      }
      assert expired[..i] == expired;
    }

    // reset(): one turn of its loop
    method ResetOne()
      requires !callingExpiredTimers && Inv(Here().(calling := true)) && expired != []
      modifies this
      ensures !callingExpiredTimers && Here().(calling := true) == RestartedOne(old(Here()).(calling := true))
    {
      hide Inv, Inserted, RestartedOne;
      ResetOneStep(Here());
      var addr: Address, timer := expired[0].addr, heap[expired[0].addr];
      expired := expired[1..];
      if timer.Repeat() && ActiveTimer(addr, timer.sequence) !in cancelingTimers {
        heap := heap[addr := timer.(expiration := now + timer.interval)];
        var _ := Insert(addr);
      } else {
        heap := heap - {addr};
      }
    }

    method ResetExpired(clock: int)
      requires !callingExpiredTimers && Inv(Here().(calling := true))
      modifies this
      ensures Here() == Ended(old(Here()).(calling := true), clock) && Inv(Here()) && !callingExpiredTimers
    {
      ghost var q := Here().(calling := true);
      EndKeepsInv(q, clock);
      hide Inv, RestartedOne;
      while expired != []
        invariant !callingExpiredTimers && Inv(Here().(calling := true))
        invariant Restarted(Here().(calling := true)) == Restarted(q)
        decreases |expired|
      {
        RestartKeepsInv(Here().(calling := true));
        ResetOne();
      }
      var nextExpire := 0;
      if timers != [] { nextExpire := timers[0].time; }
      if nextExpire > 0 { Reset(nextExpire, clock); }
    }

    // What a callback does to the queue.
    method Call(call: Event)
      requires Inv(Here()) && Legal(Here(), call) && (call.New? || call.Add? || call.Cancel?)
      modifies this
      ensures Here() == Next(old(Here()), call) && Inv(Here())
    {
      hide Inv, Added, Cancelled, Created;
      match call {
        case New(addr, when, interval) => var _ := AddTimer(addr, when, interval);
        case Add(addr, clock) => AddTimerInLoop(addr, clock);
        case Cancel(id) => CancelInLoop(id);
      }
    }

    /** handleRead: `calls` are what the callbacks do, in order. */
    method HandleRead(time: int, calls: seq<Event>, clock: int)
      requires Inv(Here()) && !callingExpiredTimers && time >= 0
      requires Inv(Begun(Here(), time)) && LegalRun(Begun(Here(), time), calls)
      requires forall e | e in calls :: e.New? || e.Add? || e.Cancel?
      modifies this
      ensures Run(Begun(old(Here()), time), calls).calling
      ensures Here() == Ended(Run(Begun(old(Here()), time), calls), clock) && Inv(Here()) && !callingExpiredTimers
    {
      ghost var q := Begun(Here(), time);
      if timerfd.Fired? { timerfd := Disarmed; }
      SameTimersWhateverTheFd(old(Here()), timerfd);
      GetExpired(time);
      callingExpiredTimers, cancelingTimers, now := true, {}, time;
      assert Here() == q;
      hide Inv, Legal, Next, Ended, WithExpired;
      for i := 0 to |calls|
        invariant callingExpiredTimers && Inv(Here()) && LegalRun(Here(), calls[i..])
        invariant Run(Here(), calls[i..]) == Run(q, calls)
      {
        NextCall(Here(), calls, i);
        Call(calls[i]);
      }
      assert calls[|calls|..] == [];
      callingExpiredTimers := false;
      ResetExpired(clock);
    }
  }

  lemma SameTimersWhateverTheFd(q: Queue, fd: TimerFd)
    requires SameTimers(q)
    ensures SameTimers(q.(fd := fd))
  {
    forall a: Address ensures Scheduled(q.(fd := fd), a) == Scheduled(q, a) {}
  }

  lemma NextCall(q: Queue, calls: seq<Event>, i: nat)
    requires i < |calls| && Inv(q) && q.calling && LegalRun(q, calls[i..])
    requires calls[i].New? || calls[i].Add? || calls[i].Cancel?
    ensures Legal(q, calls[i]) && Inv(Next(q, calls[i])) && Next(q, calls[i]).calling
    ensures LegalRun(Next(q, calls[i]), calls[i + 1..])
    ensures Run(q, calls[i..]) == Run(Next(q, calls[i]), calls[i + 1..])
  {
    NextKeepsInv(q, calls[i]);
    assert calls[i..][1..] == calls[i + 1..];
    hide Inv;
  }

  lemma NotYetInserted(q: Queue, a: Address)
    requires a in q.heap && a !in q.waiting && Inv(q.(waiting := q.waiting + {a}))
    ensures Entry(q.heap[a].expiration, a) !in q.timers && IdOf(q, a) !in q.active
  {
    var q' := q.(waiting := q.waiting + {a});
    assert !Scheduled(q', a);
  }

  // reset() runs with the flag already cleared.
  lemma ResetOneStep(q: Queue)
    requires !q.calling && Inv(q.(calling := true)) && q.expired != []
    ensures HasExpired(q) && HasExpired(q.(calling := true))
    ensures var a: Address := q.expired[0].addr;
            var next := RestartedOne(q.(calling := true));
            if Survives(q, a) then
              && Entry(Touched(q).heap[a].expiration, a) !in q.timers && IdOf(q, a) !in q.active
              && Inserted(Touched(q), a).(calling := true) == next
            else Freed(q).(calling := true) == next
  {
    hide Inv, Inserted;
    var c := q.(calling := true);
    FirstIsThere(c);
    var a: Address := q.expired[0].addr;
    if Survives(q, a) {
      TouchedKeepsInv(c, a);
      NotYetInserted(Touched(c), a);
      InsertedWhileCalling(Touched(q), a);
    }
  }

  lemma InsertedWhileCalling(q: Queue, a: Address)
    requires a in q.heap
    ensures Inserted(q.(calling := true), a) == Inserted(q, a).(calling := true)
  {
    hide Put;
  }

  ghost function IdsOf(q: Queue, entries: seq<Entry>): set<ActiveTimer>
    requires forall e | e in entries :: e.addr < UINTPTR_MAX && e.addr in q.heap
  {
    set e | e in entries :: ActiveTimer(e.addr, q.heap[e.addr].sequence)
  }

  lemma ExpiredAreScheduled(q: Queue, time: int)
    requires AreLive(q.timers, q.heap) && SameTimers(q)
    ensures var batch := WithExpired(q, time).expired;
            && AreLive(batch, q.heap) && (forall e | e in batch :: e.addr < UINTPTR_MAX && e.addr in q.heap)
            && WithExpired(q, time).active == q.active - IdsOf(q, batch) && IdsOf(q, []) == {}
            && forall e | e in batch :: ActiveTimer(e.addr, q.heap[e.addr].sequence) in q.active
  {
    var batch := WithExpired(q, time).expired;
    ExpiredAreExactlyTheDue(q, time);
    hide NoneLost, SequencesIdentify, Watched, LowerBound, Ascending;
    forall e | e in batch ensures e in q.timers && Scheduled(q, e.addr) {}
  }

  // Each of them is in the second set under an id of its own.
  lemma OneMoreId(q: Queue, batch: seq<Entry>, i: nat)
    requires AreLive(batch, q.heap) && i < |batch|
    ensures forall e | e in batch :: e.addr < UINTPTR_MAX && e.addr in q.heap
    ensures var id := ActiveTimer(batch[i].addr, q.heap[batch[i].addr].sequence);
            id !in IdsOf(q, batch[..i]) && IdsOf(q, batch[..i + 1]) == IdsOf(q, batch[..i]) + {id}
  {
    assert batch[..i + 1] == batch[..i] + [batch[i]];
    assert forall k | 0 <= k < i :: Less(batch[k], batch[i]);
  }
}
