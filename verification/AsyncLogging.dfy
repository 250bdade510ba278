/** The double-buffered logger: any number of threads append lines under the mutex, one thread takes the
    buffers under the mutex and writes them without it (muduo/base/AsyncLogging.cc, LogStream.h).

    A buffer is owned by one unique_ptr at a time, so it is modelled by what it holds. */
module AsyncLoggings {
  const kLargeBuffer := 4000 * 1000
  const kMaxBatch := 25

  // std::unique_ptr<Buffer>
  datatype BufferPtr = Null | Owned(text: string)

  // What the log file is given: buffers, and a notice of how many were thrown away.
  datatype Piece = Text(text: string) | DroppedNotice(buffers: nat)

  /** Where the logging thread is: at the top of its loop, behind the locked region, writing (so many of
      the batch written), or done. */
  datatype Pc = Top | Taken | Writing(done: nat) | Exited

  /** The first three fields are shared, the others belong to the logging thread.  The condition variable
      may wake it at any time, so the locked region can start in any state. */
  datatype Log = Log(current: string, next: BufferPtr, buffers: seq<string>,
                     pc: Pc, newBuffer1: BufferPtr, newBuffer2: BufferPtr, batch: seq<string>, output: seq<Piece>)

  const Started := Log("", Owned(""), [], Top, Owned(""), Owned(""), [], [])

  datatype Action = Append(line: string) | Take | Trim | WriteOne | Recycle | Exit

  // ---------------------------------------------------------------------------------------------
  // What each part of the source does
  // ---------------------------------------------------------------------------------------------

  // FixedBuffer::append takes a line only if a byte is left over, and silently drops it otherwise.
  function Put(buffer: string, line: string): string {
    if kLargeBuffer - |buffer| > |line| then buffer + line else buffer
  }

  function Appended(s: Log, line: string): Log {
    if kLargeBuffer - |s.current| > |line| then s.(current := Put(s.current, line))
    else
      var replacement := if s.next.Owned? then s.next.text else "";
      s.(buffers := s.buffers + [s.current], current := Put(replacement, line), next := Null)
  }

  function TakenBuffers(s: Log): Log
    requires s.newBuffer1.Owned?
  {
    s.(batch := s.buffers + [s.current], buffers := [], current := s.newBuffer1.text, newBuffer1 := Null,
       next := if s.next.Null? then s.newBuffer2 else s.next,
       newBuffer2 := if s.next.Null? then Null else s.newBuffer2, pc := Taken)
  }

  function Trimmed(s: Log): Log {
    if |s.batch| > kMaxBatch
    then s.(output := s.output + [DroppedNotice(|s.batch| - 2)], batch := s.batch[..2], pc := Writing(0))
    else s.(pc := Writing(0))
  }

  function WroteOne(s: Log): Log
    requires s.pc.Writing? && s.pc.done < |s.batch|
  {
    s.(output := s.output + [Text(s.batch[s.pc.done])], pc := Writing(s.pc.done + 1))
  }

  function Recycled(s: Log): Log
    requires s.newBuffer1.Null? ==> s.batch != []
    requires s.newBuffer1.Null? && s.newBuffer2.Null? ==> |s.batch| >= 2
  {
    s.(newBuffer1 := if s.newBuffer1.Null? then Owned("") else s.newBuffer1,
       newBuffer2 := if s.newBuffer2.Null? then Owned("") else s.newBuffer2, batch := [], pc := Top)
  }

  predicate Enabled(s: Log, a: Action) {
    match a
    case Append(_) => true
    case Take => s.pc.Top?
    case Trim => s.pc.Taken?
    case WriteOne => s.pc.Writing? && s.pc.done < |s.batch|
    case Recycle => s.pc.Writing? && s.pc.done == |s.batch|
    case Exit => s.pc.Top?
  }

  function Next(s: Log, a: Action): Log
    requires Inv(s) && Enabled(s, a)
  {
    match a
    case Append(line) => Appended(s, line)
    case Take => TakenBuffers(s)
    case Trim => Trimmed(s)
    case WriteOne => WroteOne(s)
    case Recycle => Recycled(s)
    case Exit => s.(pc := Exited)
  }

  // ---------------------------------------------------------------------------------------------
  // The invariant
  // ---------------------------------------------------------------------------------------------

  predicate Spare(p: BufferPtr) { p == Owned("") }

  /** A missing nextBuffer_ means that buffers_ is not empty.  So whenever the thread has given away both
      its spares the batch holds at least two buffers, and both can be replaced. */
  predicate Inv(s: Log) {
    && |s.current| < kLargeBuffer
    && (s.next.Null? || Spare(s.next))
    && (s.next.Null? ==> s.buffers != [])
    && (s.newBuffer2.Null? || Spare(s.newBuffer2))
    && match s.pc
       case Top => Spare(s.newBuffer1) && Spare(s.newBuffer2) && s.batch == []
       case Exited => Spare(s.newBuffer1) && Spare(s.newBuffer2) && s.batch == []
       case Taken => EnoughToRecycle(s)
       case Writing(done) => EnoughToRecycle(s) && done <= |s.batch|
  }

  predicate EnoughToRecycle(s: Log) {
    s.newBuffer1.Null? && s.batch != [] && (s.newBuffer2.Null? ==> |s.batch| >= 2)
  }

  /** The assertions of threadFunc hold, in every interleaving: at the top of the loop both spares are there
      and empty, and no pop_back finds the batch empty. */
  lemma NextKeepsInv(s: Log, a: Action)
    requires Inv(s) && Enabled(s, a)
    ensures Inv(Next(s, a))
  {
  }

  /** A line goes behind the others in the current buffer if that leaves a byte of its four million; else the
      buffer is queued and the line starts the next one, unless it would fill that alone and is dropped. */
  lemma AppendLaw(s: Log, line: string)
    requires Inv(s)
    ensures var r := Appended(s, line);
            if |s.current| + |line| < 4000000 then r == s.(current := s.current + line)
            else r.buffers == s.buffers + [s.current] && r.current == (if |line| < 4000000 then line else "") && r.next.Null?
  {
  }

  /** A batch of at most 25 buffers is written as it is; of a larger one the first two are, behind a notice. */
  lemma TrimLaw(s: Log)
    requires Inv(s) && s.pc.Taken?
    ensures var r := Trimmed(s);
            if |s.batch| <= 25 then r.batch == s.batch && r.output == s.output
            else r.batch == [s.batch[0], s.batch[1]] && r.output == s.output + [DroppedNotice(|s.batch| - 2)]
  {
  }

  // ---------------------------------------------------------------------------------------------
  // Where the lines are
  // ---------------------------------------------------------------------------------------------

  function Concat(buffers: seq<string>): string {
    if buffers == [] then "" else buffers[0] + Concat(buffers[1..])
  }

  function Written(output: seq<Piece>): string {
    if output == [] then "" else (if output[0].Text? then output[0].text else "") + Written(output[1..])
  }

  // The part of the batch that has yet to be written.
  function ToWrite(s: Log): seq<string> {
    if s.pc.Taken? then s.batch
    else if s.pc.Writing? && s.pc.done <= |s.batch| then s.batch[s.pc.done..]
    else []
  }

  // Everything that was not written yet, in the order of the appends.
  function InMemory(s: Log): string { Concat(ToWrite(s)) + Concat(s.buffers) + s.current }

  // A line is kept if it is shorter than a buffer.
  function Kept(line: string): string { if |line| < kLargeBuffer then line else "" }

  function KeptBy(a: Action): string { if a.Append? then Kept(a.line) else "" }

  lemma {:induction false} ConcatAppend(buffers: seq<string>, last: string)
    ensures Concat(buffers + [last]) == Concat(buffers) + last
  {
    if buffers == [] {
      assert Concat([last]) == last + Concat([last][1..]) && [last][1..] == [];
      assert [] + [last] == [last];
    } else {
      ConcatAppend(buffers[1..], last);
      assert (buffers + [last])[1..] == buffers[1..] + [last];
      assert Concat(buffers + [last]) == buffers[0] + (Concat(buffers[1..]) + last);
    }
  }

  lemma {:induction false} WrittenAppend(output: seq<Piece>, piece: Piece)
    ensures Written(output + [piece]) == Written(output) + if piece.Text? then piece.text else ""
  {
    var text := if piece.Text? then piece.text else "";
    if output == [] {
      assert Written([piece]) == text + Written([piece][1..]) && [piece][1..] == [];
      assert [] + [piece] == [piece];
    } else {
      WrittenAppend(output[1..], piece);
      assert (output + [piece])[1..] == output[1..] + [piece];
      var first := if output[0].Text? then output[0].text else "";
      assert Written(output + [piece]) == first + (Written(output[1..]) + text);
    }
  }

  lemma Regroup(a: string, b: string, c: string, d: string)
    ensures a + b + (c + d) == a + b + c + d
    ensures a + (b + c) + d == a + b + c + d
    ensures a + b + (c + d) == a + (b + c + d)
  {
  }

  lemma AppendConserves(s: Log, line: string)
    requires Inv(s)
    ensures InMemory(Appended(s, line)) == InMemory(s) + Kept(line)
  {
    hide Concat;
    var s' := Appended(s, line);
    assert ToWrite(s') == ToWrite(s);
    if kLargeBuffer - |s.current| > |line| {
      assert s'.current == s.current + Kept(line);
      hide Appended, ToWrite, Kept;
    } else {
      ConcatAppend(s.buffers, s.current);
      assert s'.current == Kept(line);
      hide Appended, ToWrite, Kept;
    }
    Regroup(Concat(ToWrite(s)), Concat(s.buffers), s.current, Kept(line));
  }

  lemma TakeConserves(s: Log)
    requires Inv(s) && s.pc.Top?
    ensures InMemory(TakenBuffers(s)) == InMemory(s)
  {
    ConcatAppend(s.buffers, s.current);
    assert Concat([]) == "";
    hide Concat;
    var s' := TakenBuffers(s);
    assert ToWrite(s') == s.buffers + [s.current] && s'.buffers == [] && s'.current == "";
  }

  lemma WriteConserves(s: Log)
    requires Inv(s) && s.pc.Writing? && s.pc.done < |s.batch|
    ensures var s' := WroteOne(s); Written(s'.output) + InMemory(s') == Written(s.output) + InMemory(s)
  {
    var s', first := WroteOne(s), s.batch[s.pc.done];
    WrittenAppend(s.output, Text(first));
    assert ToWrite(s)[1..] == ToWrite(s') && ToWrite(s)[0] == first;
    assert Concat(ToWrite(s)) == first + Concat(ToWrite(s'));
    hide Concat, Written, ToWrite;
    Regroup(Written(s.output), first, Concat(ToWrite(s')) + Concat(s.buffers), s.current);
    Regroup(first, Concat(ToWrite(s')), Concat(s.buffers), s.current);
  }

  /** No action of any thread loses, doubles or reorders a kept line, as long as no batch is trimmed. */
  lemma NextConserves(s: Log, a: Action)
    requires Inv(s) && Enabled(s, a) && (a.Trim? ==> |s.batch| <= kMaxBatch)
    ensures var s' := Next(s, a);
            Written(s'.output) + InMemory(s') == Written(s.output) + InMemory(s) + KeptBy(a)
  {
    hide Concat, Written, Appended, TakenBuffers, WroteOne, Kept;
    match a
    case Append(line) =>
      AppendConserves(s, line);
      AppendWritesNothing(s, line);
    case Take =>
      TakeConserves(s);
      TakeWritesNothing(s);
    case WriteOne => WriteConserves(s);
    case Trim => assert ToWrite(Trimmed(s)) == ToWrite(s);
    case Recycle => assert ToWrite(Recycled(s)) == ToWrite(s);
    case Exit =>
  }

  lemma AppendWritesNothing(s: Log, line: string)
    ensures Appended(s, line).output == s.output
  {
  }

  lemma TakeWritesNothing(s: Log)
    requires s.newBuffer1.Owned?
    ensures TakenBuffers(s).output == s.output
  {
  }

  // ---------------------------------------------------------------------------------------------
  // Whole runs
  // ---------------------------------------------------------------------------------------------

  ghost predicate LegalRun(s: Log, actions: seq<Action>)
    requires Inv(s)
    decreases |actions|
  {
    actions == [] ||
    (Enabled(s, actions[0]) && (NextKeepsInv(s, actions[0]); LegalRun(Next(s, actions[0]), actions[1..])))
  }

  ghost function Run(s: Log, actions: seq<Action>): (r: Log)
    requires Inv(s) && LegalRun(s, actions)
    ensures Inv(r)
    decreases |actions|
  {
    if actions == [] then s
    else
      NextKeepsInv(s, actions[0]);
      Run(Next(s, actions[0]), actions[1..])
  }

  function AllKept(actions: seq<Action>): string {
    if actions == [] then "" else KeptBy(actions[0]) + AllKept(actions[1..])
  }

  // No batch of the run exceeds kMaxBatch buffers.
  ghost predicate NeverTrims(s: Log, actions: seq<Action>)
    requires Inv(s) && LegalRun(s, actions)
    decreases |actions|
  {
    actions == [] ||
    (&& (actions[0].Trim? ==> |s.batch| <= kMaxBatch)
     && (NextKeepsInv(s, actions[0]); NeverTrims(Next(s, actions[0]), actions[1..])))
  }

  /** In every run the lines shorter than a buffer are, each once and in the order they were appended, in
      the file, in the batch, in buffers_ or in the current buffer. */
  lemma {:induction false} EveryLineIsKeptOnce(s: Log, actions: seq<Action>)
    requires Inv(s) && LegalRun(s, actions) && NeverTrims(s, actions)
    ensures var r := Run(s, actions);
            Written(r.output) + InMemory(r) == Written(s.output) + InMemory(s) + AllKept(actions)
    decreases |actions|
  {
    hide Inv, Enabled, Next, KeptBy, Written, InMemory;
    if actions == [] {
      assert Written(s.output) + InMemory(s) + "" == Written(s.output) + InMemory(s);
    } else {
      var a := actions[0];
      NextKeepsInv(s, a);
      NextConserves(s, a);
      EveryLineIsKeptOnce(Next(s, a), actions[1..]);
      assert Written(s.output) + InMemory(s) + KeptBy(a) + AllKept(actions[1..])
             == Written(s.output) + InMemory(s) + (KeptBy(a) + AllKept(actions[1..]));
    }
  }

  // ---------------------------------------------------------------------------------------------
  // Oversized batches
  // ---------------------------------------------------------------------------------------------

  // A buffer the thread took: to be written, or to be thrown away.
  datatype Entry = Entry(text: string, dropped: bool)

  function Mark(buffers: seq<string>, dropped: bool): seq<Entry> {
    if buffers == [] then [] else [Entry(buffers[0], dropped)] + Mark(buffers[1..], dropped)
  }

  // Of an oversized batch all but the first two buffers are dropped.
  function Booked(batch: seq<string>): seq<Entry> {
    if |batch| > kMaxBatch then Mark(batch[..2], false) + Mark(batch[2..], true) else Mark(batch, false)
  }

  function AllText(book: seq<Entry>): string { if book == [] then "" else book[0].text + AllText(book[1..]) }

  function Survivors(book: seq<Entry>): string {
    if book == [] then "" else (if book[0].dropped then "" else book[0].text) + Survivors(book[1..])
  }

  function Drops(book: seq<Entry>): nat {
    if book == [] then 0 else (if book[0].dropped then 1 else 0) + Drops(book[1..])
  }

  // What the notices in the file count.
  function Noticed(output: seq<Piece>): nat {
    if output == [] then 0 else (if output[0].DroppedNotice? then output[0].buffers else 0) + Noticed(output[1..])
  }

  // What will still be written of the batch, and what will still be thrown away.
  function Outstanding(s: Log): string {
    Concat(if s.pc.Taken? && |s.batch| > kMaxBatch then s.batch[..2] else ToWrite(s))
  }

  function OutstandingDrops(s: Log): nat {
    if s.pc.Taken? && |s.batch| > kMaxBatch then |s.batch| - 2 else 0
  }

  /** `book` lists every buffer taken so far, in order: together with what waits they hold every kept line;
      those not dropped are in the file or about to be; and the notices count those dropped. */
  predicate Accounts(s: Log, book: seq<Entry>, kept: string) {
    && AllText(book) + Waiting(s) == kept
    && Survivors(book) == Written(s.output) + Outstanding(s)
    && Drops(book) == Noticed(s.output) + OutstandingDrops(s)
  }

  lemma {:induction false} AllTextConcat(a: seq<Entry>, b: seq<Entry>)
    ensures AllText(a + b) == AllText(a) + AllText(b)
    decreases |a|
  {
    if a == [] {
      assert a + b == b;
    } else {
      AllTextConcat(a[1..], b);
      assert (a + b)[0] == a[0] && (a + b)[1..] == a[1..] + b;
      assert a[0].text + (AllText(a[1..]) + AllText(b)) == a[0].text + AllText(a[1..]) + AllText(b);
    }
  }

  lemma {:induction false} SurvivorsConcat(a: seq<Entry>, b: seq<Entry>)
    ensures Survivors(a + b) == Survivors(a) + Survivors(b)
    decreases |a|
  {
    if a == [] {
      assert a + b == b;
    } else {
      SurvivorsConcat(a[1..], b);
      assert (a + b)[0] == a[0] && (a + b)[1..] == a[1..] + b;
      var first := if a[0].dropped then "" else a[0].text;
      assert first + (Survivors(a[1..]) + Survivors(b)) == first + Survivors(a[1..]) + Survivors(b);
    }
  }

  lemma {:induction false} DropsConcat(a: seq<Entry>, b: seq<Entry>)
    ensures Drops(a + b) == Drops(a) + Drops(b)
    decreases |a|
  {
    if a == [] {
      assert a + b == b;
    } else {
      DropsConcat(a[1..], b);
      assert (a + b)[0] == a[0] && (a + b)[1..] == a[1..] + b;
    }
  }

  lemma BookConcat(a: seq<Entry>, b: seq<Entry>)
    ensures AllText(a + b) == AllText(a) + AllText(b)
    ensures Survivors(a + b) == Survivors(a) + Survivors(b)
    ensures Drops(a + b) == Drops(a) + Drops(b)
  {
    hide *;
    AllTextConcat(a, b);
    SurvivorsConcat(a, b);
    DropsConcat(a, b);
  }

  lemma {:induction false} MarkedText(buffers: seq<string>, dropped: bool)
    ensures AllText(Mark(buffers, dropped)) == Concat(buffers)
    ensures Survivors(Mark(buffers, dropped)) == if dropped then "" else Concat(buffers)
    ensures Drops(Mark(buffers, dropped)) == if dropped then |buffers| else 0
    decreases |buffers|
  {
    if buffers != [] { MarkedText(buffers[1..], dropped); }
  }

  lemma {:induction false} ConcatConcat(a: seq<string>, b: seq<string>)
    ensures Concat(a + b) == Concat(a) + Concat(b)
    decreases |a|
  {
    if a == [] {
      assert a + b == b;
    } else {
      ConcatConcat(a[1..], b);
      assert (a + b)[0] == a[0] && (a + b)[1..] == a[1..] + b;
      assert Concat(a + b) == a[0] + (Concat(a[1..]) + Concat(b));
    }
  }

  lemma {:induction false} NoticedAppend(output: seq<Piece>, piece: Piece)
    ensures Noticed(output + [piece]) == Noticed(output) + if piece.DroppedNotice? then piece.buffers else 0
  {
    if output == [] {
      assert [] + [piece] == [piece] && [piece][1..] == [];
    } else {
      NoticedAppend(output[1..], piece);
      assert (output + [piece])[0] == output[0] && (output + [piece])[1..] == output[1..] + [piece];
    }
  }

  lemma BookedText(batch: seq<string>)
    ensures AllText(Booked(batch)) == Concat(batch)
    ensures Survivors(Booked(batch)) == Concat(if |batch| > kMaxBatch then batch[..2] else batch)
    ensures Drops(Booked(batch)) == if |batch| > kMaxBatch then |batch| - 2 else 0
  {
    hide Mark, AllText, Survivors, Drops, Concat;
    if |batch| > kMaxBatch {
      MarkedText(batch[..2], false);
      MarkedText(batch[2..], true);
      BookConcat(Mark(batch[..2], false), Mark(batch[2..], true));
      ConcatConcat(batch[..2], batch[2..]);
      assert batch[..2] + batch[2..] == batch;
      assert Concat(batch[..2]) + "" == Concat(batch[..2]);
    } else {
      MarkedText(batch, false);
    }
  }

  ghost function BookedBy(s: Log, a: Action): seq<Entry> {
    if a.Take? then Booked(s.buffers + [s.current]) else []
  }

  lemma TakeAccounts(s: Log, book: seq<Entry>, kept: string)
    requires Inv(s) && s.pc.Top? && Accounts(s, book, kept)
    ensures Accounts(TakenBuffers(s), book + Booked(s.buffers + [s.current]), kept)
  {
    var batch := s.buffers + [s.current];
    BookedText(batch);
    BookConcat(book, Booked(batch));
    ConcatAppend(s.buffers, s.current);
    TakeEmpties(s);
    var s' := TakenBuffers(s);
    assert ToWrite(s') == batch && s'.output == s.output;
    assert Outstanding(s) == "" by { assert ToWrite(s) == []; }
    hide Booked, AllText, Survivors, Drops, Concat, Written, Noticed;
    assert AllText(book) + Concat(batch) + "" == AllText(book) + (Concat(s.buffers) + s.current);
    assert Written(s.output) + "" == Written(s.output);
  }

  lemma TrimAccounts(s: Log, book: seq<Entry>, kept: string)
    requires Inv(s) && s.pc.Taken? && Accounts(s, book, kept)
    ensures Accounts(Trimmed(s), book, kept)
  {
    var s' := Trimmed(s);
    if |s.batch| > kMaxBatch {
      WrittenAppend(s.output, DroppedNotice(|s.batch| - 2));
      NoticedAppend(s.output, DroppedNotice(|s.batch| - 2));
      assert ToWrite(s') == s.batch[..2];
    } else {
      assert ToWrite(s') == s.batch;
    }
    hide AllText, Survivors, Drops, Concat, Written, Noticed;
  }

  lemma FirstToWrite(s: Log)
    requires s.pc.Writing? && s.pc.done < |s.batch|
    ensures Concat(ToWrite(s)) == s.batch[s.pc.done] + Concat(ToWrite(WroteOne(s)))
  {
    assert ToWrite(s)[1..] == ToWrite(WroteOne(s)) && ToWrite(s)[0] == s.batch[s.pc.done];
  }

  lemma WriteAccounts(s: Log, book: seq<Entry>, kept: string)
    requires Inv(s) && s.pc.Writing? && s.pc.done < |s.batch| && Accounts(s, book, kept)
    ensures Accounts(WroteOne(s), book, kept)
  {
    hide Concat, Written, Noticed, AllText, Survivors, Drops, Inv, ToWrite, Outstanding, Waiting, OutstandingDrops;
    var s', first := WroteOne(s), s.batch[s.pc.done];
    WrittenAppend(s.output, Text(first));
    NoticedAppend(s.output, Text(first));
    OneWritten(s);
    assert Written(s.output) + first + Outstanding(s') == Written(s.output) + (first + Outstanding(s'));
  }

  lemma OneWritten(s: Log)
    requires s.pc.Writing? && s.pc.done < |s.batch|
    ensures var s' := WroteOne(s);
            && Outstanding(s) == s.batch[s.pc.done] + Outstanding(s') && Waiting(s') == Waiting(s)
            && OutstandingDrops(s') == OutstandingDrops(s)
  {
    FirstToWrite(s);
    hide Concat, ToWrite;
  }

  lemma AppendAccounts(s: Log, line: string, book: seq<Entry>, kept: string)
    requires Inv(s) && Accounts(s, book, kept)
    ensures Accounts(Appended(s, line), book, kept + Kept(line))
  {
    AppendWaits(s, line);
    SameOutstanding(s, line);
    hide AllText, Survivors, Drops, Written, Noticed, Appended, Kept, Waiting, Outstanding, OutstandingDrops, Inv;
    assert AllText(book) + Waiting(s) + Kept(line) == AllText(book) + (Waiting(s) + Kept(line));
  }

  lemma SameOutstanding(s: Log, line: string)
    ensures var s' := Appended(s, line);
            s'.output == s.output && Outstanding(s') == Outstanding(s) && OutstandingDrops(s') == OutstandingDrops(s)
  {
    hide Concat, Put;
  }

  lemma NextAccounts(s: Log, a: Action, book: seq<Entry>, kept: string)
    requires Inv(s) && Enabled(s, a) && Accounts(s, book, kept)
    ensures Accounts(Next(s, a), book + BookedBy(s, a), kept + KeptBy(a))
  {
    hide Inv, Accounts, Appended, Trimmed, WroteOne, Recycled;
    assert book + [] == book && kept + "" == kept;
    match a
    case Append(line) => AppendAccounts(s, line, book, kept);
    case Take => TakeAccounts(s, book, kept);
    case Trim => TrimAccounts(s, book, kept);
    case WriteOne => WriteAccounts(s, book, kept);
    case Recycle => NothingLeftAccounts(s, a, Next(s, a), book, kept);
    case Exit => NothingLeftAccounts(s, a, Next(s, a), book, kept);
  }

  lemma NothingLeftAccounts(s: Log, a: Action, s': Log, book: seq<Entry>, kept: string)
    requires Accounts(s, book, kept) && Inv(s) && Enabled(s, a) && (a.Recycle? || a.Exit?) && s' == Next(s, a)
    ensures Accounts(s', book, kept)
  {
    assert ToWrite(s) == [] && ToWrite(s') == [];
    hide AllText, Survivors, Drops, Written, Noticed, Concat;
  }

  // Every buffer the thread takes in a run.
  ghost function Book(s: Log, actions: seq<Action>): seq<Entry>
    requires Inv(s) && LegalRun(s, actions)
    decreases |actions|
  {
    if actions == [] then [] else BookedBy(s, actions[0]) + Book(Next(s, actions[0]), actions[1..])
  }

  lemma {:induction false} RunAccounts(s: Log, actions: seq<Action>, book: seq<Entry>, kept: string)
    requires Inv(s) && LegalRun(s, actions) && Accounts(s, book, kept)
    ensures Accounts(Run(s, actions), book + Book(s, actions), kept + AllKept(actions))
    decreases |actions|
  {
    hide Inv, Enabled, Next, KeptBy, Accounts, BookedBy;
    if actions == [] {
      assert book + [] == book && kept + "" == kept;
    } else {
      var a := actions[0];
      NextKeepsInv(s, a);
      NextAccounts(s, a, book, kept);
      RunAccounts(Next(s, a), actions[1..], book + BookedBy(s, a), kept + KeptBy(a));
      assert book + BookedBy(s, a) + Book(Next(s, a), actions[1..]) == book + Book(s, actions);
      assert kept + KeptBy(a) + AllKept(actions[1..]) == kept + AllKept(actions);
    }
  }

  /** In every run, oversized batches or not: the buffers taken and what waits hold, in lock order, every
      line shorter than a buffer; what the file holds and will hold are the buffers not dropped; and the
      notices, with one that is due, count the dropped ones. */
  lemma EveryLineIsAccountedFor(actions: seq<Action>)
    requires LegalRun(Started, actions)
    ensures Accounts(Run(Started, actions), Book(Started, actions), AllKept(actions))
  {
    StartedAccounts();
    RunAccounts(Started, actions, [], "");
    hide Accounts, Run, Book, AllKept, LegalRun;
    assert [] + Book(Started, actions) == Book(Started, actions) && "" + AllKept(actions) == AllKept(actions);
  }

  lemma StartedAccounts()
    ensures Accounts(Started, [], "")
  {
    NothingYet();
  }

  // ---------------------------------------------------------------------------------------------
  // What a stopped logger has written
  // ---------------------------------------------------------------------------------------------

  // What nobody has taken from under the mutex yet.
  function Waiting(s: Log): string { Concat(s.buffers) + s.current }

  // The actions behind the last time the buffers were taken; all of them, if they never were.
  function SinceTake(actions: seq<Action>): seq<Action> {
    if Take in actions then SinceTake(actions[1..]) else actions
  }

  lemma AppendWaits(s: Log, line: string)
    requires Inv(s)
    ensures Waiting(Appended(s, line)) == Waiting(s) + Kept(line)
  {
    if kLargeBuffer - |s.current| <= |line| { ConcatAppend(s.buffers, s.current); }
    hide Concat;
  }

  lemma NextWaits(s: Log, a: Action)
    requires Inv(s) && Enabled(s, a)
    ensures Waiting(Next(s, a)) == if a.Take? then "" else Waiting(s) + KeptBy(a)
  {
    if a.Append? { AppendWaits(s, a.line); }
    hide Inv, Appended, Waiting, Concat;
    if a.Take? { TakeEmpties(s); }
    if !a.Append? && !a.Take? { OthersDoNotTouch(s, a); }
  }

  lemma TakeEmpties(s: Log)
    requires Inv(s) && s.pc.Top?
    ensures Waiting(TakenBuffers(s)) == ""
  {
  }

  lemma OthersDoNotTouch(s: Log, a: Action)
    requires Inv(s) && Enabled(s, a) && !a.Append? && !a.Take?
    ensures Waiting(Next(s, a)) == Waiting(s) + ""
  {
    hide Concat;
  }

  lemma {:induction false} WaitingSinceTake(s: Log, actions: seq<Action>)
    requires Inv(s) && LegalRun(s, actions)
    ensures Waiting(Run(s, actions)) == (if Take in actions then "" else Waiting(s)) + AllKept(SinceTake(actions))
    decreases |actions|
  {
    hide Inv, Enabled, Next, KeptBy, Waiting;
    if actions == [] {
      assert Waiting(s) + "" == Waiting(s);
    } else {
      var a, rest := actions[0], actions[1..];
      NextKeepsInv(s, a);
      NextWaits(s, a);
      WaitingSinceTake(Next(s, a), rest);
      assert actions == [a] + rest;
      if Take !in actions {
        assert Waiting(s) + KeptBy(a) + AllKept(rest) == Waiting(s) + (KeptBy(a) + AllKept(rest));
      } else if Take !in rest {
        assert SinceTake(rest) == rest;
      }
    }
  }

  /** When stop() has joined the thread, the file holds everything exactly if no line that would have been
      kept was appended since the thread last took the buffers. */
  lemma StoppedFileIsCompleteIffNothingSinceTake(actions: seq<Action>)
    requires LegalRun(Started, actions) && NeverTrims(Started, actions)
    requires Run(Started, actions).pc.Exited?
    ensures Written(Run(Started, actions).output) == AllKept(actions) <==> AllKept(SinceTake(actions)) == ""
  {
    EveryLineIsKeptOnce(Started, actions);
    WaitingSinceTake(Started, actions);
    NothingYet();
    NothingToWrite(Run(Started, actions));
    hide *;
    WholeIffNoTail(Written(Run(Started, actions).output), AllKept(SinceTake(actions)), AllKept(actions));
  }

  lemma WholeIffNoTail(written: string, tail: string, all: string)
    ensures "" + "" + all == all && "" + tail == tail
    ensures written + tail == all ==> (written == all <==> tail == "")
  {
    assert |written + tail| == |written| + |tail|;
  }

  lemma NothingToWrite(s: Log)
    requires s.pc.Top? || s.pc.Exited?
    ensures InMemory(s) == Waiting(s)
  {
  }

  lemma NothingYet()
    ensures Written(Started.output) == "" && InMemory(Started) == "" && Waiting(Started) == ""
  {
  }

  /** The thread looks at running_ only at the top of its loop: a line appended while it writes its last
      batch stays in memory when it exits. */
  lemma LastLineIsLost(line: string)
    requires 0 < |line| < kLargeBuffer
    ensures var actions := [Take, Append(line), Trim, WriteOne, Recycle, Exit];
            LegalRun(Started, actions) &&
            var r := Run(Started, actions);
            r.pc.Exited? && Written(r.output) == "" && r.current == line
  {
    var s1 := Log("", Owned(""), [], Taken, Null, Owned(""), [""], []);
    var s2 := s1.(current := line);
    assert Next(Started, Take) == s1 && Next(s1, Append(line)) == s2;
    hide Next, Enabled, LegalRun, Run;
    var last4 := [Trim, WriteOne, Recycle, Exit];
    LastBatchWritten(s2);
    Before(s1, Append(line), last4);
    Before(Started, Take, [Append(line)] + last4);
    assert [Take, Append(line), Trim, WriteOne, Recycle, Exit] == [Take] + ([Append(line)] + last4);
  }

  lemma TrimAndWrite(s2: Log, s3: Log, s4: Log)
    requires s2 == Log(s2.current, Owned(""), [], Taken, Null, Owned(""), [""], []) && |s2.current| < kLargeBuffer
    requires s3 == s2.(pc := Writing(0)) && s4 == s3.(pc := Writing(1), output := [Text("")])
    ensures Inv(s2) && Inv(s3) && Inv(s4)
    ensures Enabled(s2, Trim) && Next(s2, Trim) == s3 && Enabled(s3, WriteOne) && Next(s3, WriteOne) == s4
  {
  }

  lemma RecycleAndExit(s2: Log, s4: Log, s5: Log, s6: Log)
    requires s2 == Log(s2.current, Owned(""), [], Taken, Null, Owned(""), [""], []) && |s2.current| < kLargeBuffer
    requires s4 == s2.(pc := Writing(1), output := [Text("")])
    requires s5 == s4.(pc := Top, newBuffer1 := Owned(""), batch := []) && s6 == s5.(pc := Exited)
    ensures Inv(s4) && Inv(s5) && Inv(s6)
    ensures Enabled(s4, Recycle) && Next(s4, Recycle) == s5 && Enabled(s5, Exit) && Next(s5, Exit) == s6
  {
  }

  lemma LastBatchWritten(s2: Log)
    requires s2 == Log(s2.current, Owned(""), [], Taken, Null, Owned(""), [""], []) && |s2.current| < kLargeBuffer
    ensures var actions := [Trim, WriteOne, Recycle, Exit];
            LegalRun(s2, actions) &&
            var r := Run(s2, actions);
            r.pc.Exited? && Written(r.output) == "" && r.current == s2.current
  {
    var s3 := s2.(pc := Writing(0));
    var s4 := s3.(pc := Writing(1), output := [Text("")]);
    var s5 := s4.(pc := Top, newBuffer1 := Owned(""), batch := []);
    var s6 := s5.(pc := Exited);
    hide *;
    TrimAndWrite(s2, s3, s4);
    RecycleAndExit(s2, s4, s5, s6);
    WrittenEmpty();
    LegalEnd(s6);
    Before(s5, Exit, []);
    Before(s4, Recycle, [Exit] + []);
    Before(s3, WriteOne, [Recycle] + ([Exit] + []));
    Before(s2, Trim, [WriteOne] + ([Recycle] + ([Exit] + [])));
    assert [Trim, WriteOne, Recycle, Exit] == [Trim] + ([WriteOne] + ([Recycle] + ([Exit] + [])));
  }

  lemma WrittenEmpty()
    ensures Written([Text("")]) == ""
  {
    assert [Text("")][1..] == [];
  }

  lemma LegalEnd(s: Log)
    requires Inv(s)
    ensures LegalRun(s, []) && Run(s, []) == s
  {
  }

  // A run, and what happens before it.
  lemma Before(s: Log, a: Action, actions: seq<Action>)
    requires Inv(s) && Enabled(s, a) && Inv(Next(s, a)) && LegalRun(Next(s, a), actions)
    ensures LegalRun(s, [a] + actions) && Run(s, [a] + actions) == Run(Next(s, a), actions)
  {
    assert ([a] + actions)[1..] == actions;
    hide Inv, Enabled, Next;
  }

  // ---------------------------------------------------------------------------------------------
  // The class
  // ---------------------------------------------------------------------------------------------

  function Texts(batch: seq<string>): seq<Piece> {
    if batch == [] then [] else [Text(batch[0])] + Texts(batch[1..])
  }

  // What one turn of the thread's loop writes.
  function Pieces(batch: seq<string>): seq<Piece> {
    if |batch| > kMaxBatch then [DroppedNotice(|batch| - 2)] + Texts(batch[..2]) else Texts(batch)
  }

  lemma {:induction false} TextsAppend(batch: seq<string>, last: string)
    ensures Texts(batch + [last]) == Texts(batch) + [Text(last)]
  {
    if batch == [] {
      assert [] + [last] == [last] && [last][1..] == [];
    } else {
      TextsAppend(batch[1..], last);
      assert (batch + [last])[1..] == batch[1..] + [last];
    }
  }

  lemma {:induction false} WrittenTexts(output: seq<Piece>, batch: seq<string>)
    ensures Written(output + Texts(batch)) == Written(output) + Concat(batch)
    decreases |batch|
  {
    if batch == [] {
      assert output + [] == output;
    } else {
      WrittenAppend(output, Text(batch[0]));
      WrittenTexts(output + [Text(batch[0])], batch[1..]);
      assert Texts(batch) == [Text(batch[0])] + Texts(batch[1..]) && Concat(batch) == batch[0] + Concat(batch[1..]);
      hide Texts, Concat, Written;
      assert output + Texts(batch) == output + [Text(batch[0])] + Texts(batch[1..]);
      assert Written(output) + batch[0] + Concat(batch[1..]) == Written(output) + Concat(batch);
    }
  }

  lemma TextsNext(buffers: seq<string>, i: nat, j: nat)
    requires j == i + 1 <= |buffers|
    ensures Texts(buffers[..j]) == Texts(buffers[..i]) + [Text(buffers[i])]
  {
    assert buffers[..j] == buffers[..i] + [buffers[i]];
    TextsAppend(buffers[..i], buffers[i]);
  }

  lemma TextsEnds(buffers: seq<string>, n: nat)
    requires n == |buffers|
    ensures Texts(buffers[..0]) == [] && Texts(buffers[..n]) == Texts(buffers)
  {
    assert buffers[..n] == buffers;
  }

  class AsyncLogging {
    var currentBuffer: string
    var nextBuffer: BufferPtr
    var buffers: seq<string>
    var output: seq<Piece>

    // The state, with the locals of threadFunc.
    function Here(pc: Pc, newBuffer1: BufferPtr, newBuffer2: BufferPtr, batch: seq<string>): Log reads this {
      Log(currentBuffer, nextBuffer, buffers, pc, newBuffer1, newBuffer2, batch, output)
    }

    function AtTop(): Log reads this { Here(Top, Owned(""), Owned(""), []) }

    constructor ()
      ensures AtTop() == Started
    {
      currentBuffer, nextBuffer, buffers, output := "", Owned(""), [], [];
    }

    method Append(line: string)
      requires Inv(AtTop())
      modifies this`currentBuffer, this`nextBuffer, this`buffers
      ensures AtTop() == Appended(old(AtTop()), line) && Inv(AtTop())
    {
      if kLargeBuffer - |currentBuffer| > |line| {
        currentBuffer := Put(currentBuffer, line);
      } else {
        buffers := buffers + [currentBuffer];
        match nextBuffer {
          case Owned(text) =>
            currentBuffer := text;
            nextBuffer := Null;
          case Null => currentBuffer := "";
        }
        currentBuffer := Put(currentBuffer, line);
      }
    }

    // threadFunc, under the mutex
    method TakeBuffers(newBuffer1: string, newBuffer2: BufferPtr) returns (newBuffer2': BufferPtr, buffersToWrite: seq<string>)
      requires Inv(Here(Top, Owned(newBuffer1), newBuffer2, []))
      modifies this`currentBuffer, this`nextBuffer, this`buffers
      ensures Here(Taken, Null, newBuffer2', buffersToWrite) == TakenBuffers(old(Here(Top, Owned(newBuffer1), newBuffer2, [])))
      ensures Inv(Here(Taken, Null, newBuffer2', buffersToWrite))
    {
      buffers := buffers + [currentBuffer];
      currentBuffer := newBuffer1;
      buffersToWrite, buffers := buffers, [];
      newBuffer2' := newBuffer2;
      if nextBuffer == Null { nextBuffer, newBuffer2' := newBuffer2, Null; }
    }

    // threadFunc, behind the mutex
    method WriteBuffers(taken: BufferPtr, batch: seq<string>) returns (newBuffer1: BufferPtr, newBuffer2: BufferPtr)
      requires Inv(Here(Taken, Null, taken, batch))
      modifies this`output
      ensures output == old(output) + Pieces(batch)
      ensures newBuffer1 == Owned("") && newBuffer2 == Owned("")
    {
      hide Texts;
      var buffersToWrite := batch;
      newBuffer1, newBuffer2 := Null, taken;
      if |buffersToWrite| > kMaxBatch {
        output := output + [DroppedNotice(|buffersToWrite| - 2)];
        buffersToWrite := buffersToWrite[..2];
      }
      ghost var before := output;
      TextsEnds(buffersToWrite, |buffersToWrite|);
      for i := 0 to |buffersToWrite|
        invariant output == before + Texts(buffersToWrite[..i])
      {
        output := output + [Text(buffersToWrite[i])];
        TextsNext(buffersToWrite, i, i + 1);
      }
      TextsEnds(buffersToWrite, |buffersToWrite|);
      if |buffersToWrite| > 2 { buffersToWrite := buffersToWrite[..2]; }
      if newBuffer1 == Null {
        assert buffersToWrite != [];
        newBuffer1 := Owned("");
        buffersToWrite := buffersToWrite[..|buffersToWrite| - 1];
      }
      if newBuffer2 == Null {
        assert buffersToWrite != [];
        newBuffer2 := Owned("");
        buffersToWrite := buffersToWrite[..|buffersToWrite| - 1];
      }
    }

    // What other threads do while this one does not hold the mutex.
    method AppendAll(lines: seq<string>)
      requires Inv(AtTop()) && buffers == [] && currentBuffer == ""
      modifies this`currentBuffer, this`nextBuffer, this`buffers
      ensures Inv(AtTop()) && Concat(buffers) + currentBuffer == KeptLines(lines)
    {
      for k := 0 to |lines|
        invariant Inv(AtTop()) && Waiting(AtTop()) == KeptLines(lines[..k])
      {
        AppendWaits(AtTop(), lines[k]);
        KeptLinesAppend(lines, k);
        hide Waiting, Inv, Kept, KeptLines, Appended;
        Append(lines[k]);
      }
      assert lines[..|lines|] == lines;
    }

    /** threadFunc, when the other threads append `arrivals[i]` before its i-th turn takes the buffers and
        running_ becomes false after the last one. */
    method ThreadFunc(arrivals: seq<seq<string>>)
      requires AtTop() == Started
      modifies this
      ensures Inv(AtTop()) && buffers == [] && currentBuffer == ""
      ensures (forall p | p in output :: p.Text?) ==> Written(output) == KeptLines(Flat(arrivals))
    {
      hide Concat, KeptLines, Flat, Written, Pieces;
      var newBuffer1, newBuffer2 := Owned(""), Owned("");
      ghost var before: seq<string> := [];
      NothingYet();
      NothingArrived(arrivals);
      for i := 0 to |arrivals|
        invariant newBuffer1 == Owned("") && newBuffer2 == Owned("") && Inv(AtTop())
        invariant buffers == [] && currentBuffer == "" && before == Flat(arrivals[..i])
        invariant (forall p | p in output :: p.Text?) ==> Written(output) == KeptLines(before)
      {
        ghost var written := output;
        AppendAll(arrivals[i]);
        ConcatAppend(buffers, currentBuffer);
        var batch;
        newBuffer2, batch := TakeBuffers("", newBuffer2);
        newBuffer1, newBuffer2 := WriteBuffers(newBuffer2, batch);
        BatchWritten(written, batch);
        KeptLinesConcat(before, arrivals[i]);
        before := before + arrivals[i];
        FlatAppend(arrivals, i);
      }
      assert arrivals[..|arrivals|] == arrivals;
    }
  }

  function Flat(arrivals: seq<seq<string>>): seq<string> {
    if arrivals == [] then [] else Flat(arrivals[..|arrivals| - 1]) + arrivals[|arrivals| - 1]
  }

  function KeptLines(lines: seq<string>): string {
    if lines == [] then "" else KeptLines(lines[..|lines| - 1]) + Kept(lines[|lines| - 1])
  }

  lemma NothingArrived(arrivals: seq<seq<string>>)
    ensures Flat(arrivals[..0]) == [] && KeptLines([]) == "" && Written([]) == ""
  {
  }

  lemma FlatAppend(arrivals: seq<seq<string>>, i: nat)
    requires i < |arrivals|
    ensures Flat(arrivals[..i + 1]) == Flat(arrivals[..i]) + arrivals[i]
  {
    assert arrivals[..i + 1][..i] == arrivals[..i];
  }

  lemma KeptLinesAppend(lines: seq<string>, i: nat)
    requires i < |lines|
    ensures KeptLines(lines[..i + 1]) == KeptLines(lines[..i]) + Kept(lines[i])
  {
    assert lines[..i + 1][..i] == lines[..i];
  }

  lemma {:induction false} KeptLinesConcat(a: seq<string>, b: seq<string>)
    ensures KeptLines(a + b) == KeptLines(a) + KeptLines(b)
    decreases |b|
  {
    hide Kept;
    if b == [] {
      assert a + b == a;
    } else {
      var n := |b| - 1;
      KeptLinesConcat(a, b[..n]);
      assert (a + b)[..|a| + n] == a + b[..n];
      assert KeptLines(a) + KeptLines(b[..n]) + Kept(b[n]) == KeptLines(a) + (KeptLines(b[..n]) + Kept(b[n]));
    }
  }

  // A batch that is not trimmed is written whole; one that is shows in the file.
  lemma BatchWritten(output: seq<Piece>, batch: seq<string>)
    ensures (forall p | p in output + Pieces(batch) :: p.Text?) ==>
              (forall p | p in output :: p.Text?) && Written(output + Pieces(batch)) == Written(output) + Concat(batch)
  {
    if |batch| > kMaxBatch {
      assert DroppedNotice(|batch| - 2) in output + Pieces(batch);
    } else {
      WrittenTexts(output, batch);
    }
    assert forall p | p in output :: p in output + Pieces(batch);
  }
}
