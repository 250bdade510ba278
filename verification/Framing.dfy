/** Requests and messages are lines, and the bytes of a line arrive in any pieces: the loop of
    ChatServer::onMessage (server/ChatServer.cc:823-871), and that of ChatClient::onMessage
    (client/ChatClient.cc:104-124), which differs in having no limit. */
module Framing {
  import opened Json
  import opened JsonRoundTrip
  import opened Buffers
  import JsonCursor

  const kMaxRequestLineBytes := 64 * 1024

  type pos = n: nat | n > 0 witness 1

  // How long an unfinished line a receiver puts up with: the server 64 KiB, the gateway what it is
  // configured to, the clients anything.
  datatype Limit = Unlimited | AtMost(bytes: pos)

  const ServerLimit := AtMost(kMaxRequestLineBytes)

  predicate Fits(length: nat, limit: Limit) { limit.AtMost? ==> length <= limit.bytes }

  // What a connection does about the bytes it received, in order.
  datatype Event = Request(fields: JsonObject) | InvalidJson(error: JsonError) | LineTooLarge

  // ---------------------------------------------------------------------------------------------
  // The stream as a whole
  // ---------------------------------------------------------------------------------------------

  function StripCR(line: string): string {
    if line != "" && line[|line| - 1] == '\r' then line[..|line| - 1] else line
  }

  function TextEvents(text: string): seq<Event> {
    if text == "" then []
    else match Parse(text)
         case Object(fields) => [Request(fields)]
         case Malformed(error) => [InvalidJson(error)]
  }

  // What one complete line, without its newline, asks for.
  function LineEvents(line: string): seq<Event> { TextEvents(StripCR(line)) }

  // The complete lines of a stream, and the unfinished one behind them.
  function Lines(s: string): (lines: seq<string>)
    ensures forall l | l in lines :: '\n' !in l
  {
    match FindChar(s, '\n')
    case NotFound => []
    case At(i) => [s[..i]] + Lines(s[i + 1..])
  }

  function Unfinished(s: string): (rest: string)
    ensures '\n' !in rest && |rest| <= |s|
  {
    match FindChar(s, '\n')
    case NotFound => s
    case At(i) => Unfinished(s[i + 1..])
  }

  function Handled(lines: seq<string>): seq<Event> {
    if lines == [] then [] else LineEvents(lines[0]) + Handled(lines[1..])
  }

  // ---------------------------------------------------------------------------------------------
  // The stream in pieces
  // ---------------------------------------------------------------------------------------------

  // The bytes waiting in the input buffer; forceClose ends the connection before the next read.
  datatype Input = Input(pending: string, closed: bool)

  function Receive(input: Input, chunk: string, limit: Limit): (Input, seq<Event>) {
    if input.closed then (input, [])
    else
      var s := input.pending + chunk;
      var rest := Unfinished(s);
      if !Fits(|rest|, limit)
      then (Input(rest, true), Handled(Lines(s)) + [LineTooLarge])
      else (Input(rest, false), Handled(Lines(s)))
  }

  function ReceiveAll(input: Input, chunks: seq<string>, limit: Limit): (Input, seq<Event>)
    decreases |chunks|
  {
    if chunks == [] then (input, [])
    else
      var first := Receive(input, chunks[0], limit);
      var others := ReceiveAll(first.0, chunks[1..], limit);
      (others.0, first.1 + others.1)
  }

  function Concat(chunks: seq<string>): string {
    if chunks == [] then "" else chunks[0] + Concat(chunks[1..])
  }

  const Fresh := Input("", false)

  // Everything a stream leads to, when its reads are `chunks`.
  function EventsOf(chunks: seq<string>, limit: Limit): seq<Event> { ReceiveAll(Fresh, chunks, limit).1 }

  // ---------------------------------------------------------------------------------------------
  // The loop
  // ---------------------------------------------------------------------------------------------

  // What the connection does about a line without its newline and carriage return.
  method HandleText(text: string) returns (events: seq<Event>)
    ensures events == TextEvents(text)
  {
    hide Parse;
    if text == "" { return []; }
    var request := JsonCursor.ParseJsonObject(text);
    match request {
      case Object(fields) => events := [Request(fields)];
      case Malformed(error) => events := [InvalidJson(error)];
    }
  }

  lemma ReceivedFresh(s: string)
    ensures Receive(Fresh, s, ServerLimit) ==
            if |Unfinished(s)| > kMaxRequestLineBytes then (Input(Unfinished(s), true), Handled(Lines(s)) + [LineTooLarge])
            else (Input(Unfinished(s), false), Handled(Lines(s)))
  {
    hide Lines, Unfinished, Handled;
    assert Fresh.pending + s == s;
  }

  /** onMessage, after a read has appended its bytes to the input buffer. */
  method OnMessage(buffer: Buffer) returns (events: seq<Event>, forceClose: bool)
    requires buffer.Valid()
    modifies buffer
    ensures buffer.Valid()
    ensures (Input(buffer.Readable(), forceClose), events) == Receive(Fresh, old(buffer.Readable()), ServerLimit)
  {
    hide Lines, Unfinished, Handled, FindChar, TextEvents, Receive, Fits;
    events := [];
    ghost var s := buffer.Readable();
    while true
      invariant buffer.Valid()
      invariant events + Handled(Lines(buffer.Readable())) == Handled(Lines(s))
      invariant Unfinished(buffer.Readable()) == Unfinished(s)
      decreases |buffer.Readable()|
    {
      ghost var here := buffer.Readable();
      var eol := buffer.FindEOL();
      if eol.NotFound? {
        NoLines(here);
        break;
      }
      var line := buffer.RetrieveAsString(eol.index);
      ghost var rest := here[eol.index + 1..];
      assert here == line + "\n" + rest;
      LineTaken(events, here, line, rest, s);
      buffer.Retrieve(1);
      assert buffer.Readable() == rest;
      if line != "" && line[|line| - 1] == '\r' { line := line[..|line| - 1]; }
      var handled := HandleText(line);
      events := events + handled;
    }
    assert events + [] == events == Handled(Lines(s));
    ReceivedFresh(s);
    forceClose := |buffer.Readable()| > kMaxRequestLineBytes;
    if forceClose { events := events + [LineTooLarge]; }
  }

  // ---------------------------------------------------------------------------------------------
  // Cutting a stream anywhere
  // ---------------------------------------------------------------------------------------------

  lemma ConcatIsAssociative(a: seq<Event>, b: seq<Event>, c: seq<Event>)
    ensures a + b + c == a + (b + c)
  {
  }

  lemma {:induction false} HandledConcat(a: seq<string>, b: seq<string>)
    ensures Handled(a + b) == Handled(a) + Handled(b)
  {
    hide LineEvents;
    if a == [] {
      assert a + b == b;
    } else {
      HandledConcat(a[1..], b);
      assert (a + b)[0] == a[0] && (a + b)[1..] == a[1..] + b;
      ConcatIsAssociative(LineEvents(a[0]), Handled(a[1..]), Handled(b));
    }
  }

  lemma {:induction false} FindCharConcat(a: string, b: string, c: char)
    ensures FindChar(a, c).At? ==> FindChar(a + b, c) == FindChar(a, c)
    ensures FindChar(a, c).NotFound? ==>
              FindChar(a + b, c) == if FindChar(b, c).At? then Found.At(|a| + FindChar(b, c).index) else NotFound
    decreases |a|
  {
    if a == "" {
      assert a + b == b;
    } else {
      FindCharConcat(a[1..], b, c);
      assert (a + b)[1..] == a[1..] + b;
    }
  }

  lemma FirstLine(head: string, rest: string)
    requires '\n' !in head
    ensures var s := head + "\n" + rest;
            && FindChar(s, '\n') == Found.At(|head|)
            && Lines(s) == [head] + Lines(rest) && Unfinished(s) == Unfinished(rest)
            && Handled(Lines(s)) == LineEvents(head) + Handled(Lines(rest))
  {
    var s := head + "\n" + rest;
    assert s == head + ("\n" + rest) && s[..|head|] == head && s[|head| + 1..] == rest;
    FindCharConcat(head, "\n" + rest, '\n');
    assert FindChar("\n" + rest, '\n') == Found.At(0);
    hide LineEvents, FindChar;
    assert FindChar(head, '\n').NotFound?;
    assert ([head] + Lines(rest))[1..] == Lines(rest);
  }

  // One line taken off the front of the buffer.
  lemma LineTaken(before: seq<Event>, here: string, line: string, rest: string, s: string)
    requires here == line + "\n" + rest && '\n' !in line
    requires before + Handled(Lines(here)) == Handled(Lines(s)) && Unfinished(here) == Unfinished(s)
    ensures before + LineEvents(line) + Handled(Lines(rest)) == Handled(Lines(s)) && Unfinished(rest) == Unfinished(s)
  {
    hide *;
    FirstLine(line, rest);
    assert before + (LineEvents(line) + Handled(Lines(rest))) == before + LineEvents(line) + Handled(Lines(rest));
  }

  lemma NoLines(s: string)
    requires '\n' !in s
    ensures Lines(s) == [] && Unfinished(s) == s && Handled([]) == []
  {
    if FindChar(s, '\n').At? { assert false; }
  }

  /** However a stream is cut, its lines are those of the front, then those that the unfinished line of
      the front makes with the back. */
  lemma {:induction false} CutAnywhere(a: string, b: string)
    ensures Lines(a + b) == Lines(a) + Lines(Unfinished(a) + b)
    ensures Unfinished(a + b) == Unfinished(Unfinished(a) + b)
    decreases |a|
  {
    hide *;
    if FindChar(a, '\n').At? {
      var i := FindChar(a, '\n').index;
      var first, rest := a[..i], a[i + 1..];
      CutAnywhere(rest, b);
      assert a == first + "\n" + rest && a + b == first + "\n" + (rest + b);
      FirstLine(first, rest);
      FirstLine(first, rest + b);
    } else {
      NoLines(a);
    }
  }

  /** What the server does about a line, wherever it stands in a stream and whether it ends in a line feed or
      in carriage return and line feed: nothing if it is empty, else what parsing it says. */
  lemma LineLaw(text: string, rest: string)
    requires '\n' !in text && (text == "" || text[|text| - 1] != '\r')
    ensures var event := if text == "" then [] else if Parse(text).Object? then [Request(Parse(text).fields)]
                         else [InvalidJson(Parse(text).error)];
            && Handled(Lines(text + "\n" + rest)) == event + Handled(Lines(rest))
            && Handled(Lines(text + "\r" + "\n" + rest)) == event + Handled(Lines(rest))
  {
    hide *;
    FirstLine(text, rest);
    CarriageReturnStays(text);
    FirstLine(text + "\r", rest);
    SameEvents(text);
  }

  lemma CarriageReturnStays(text: string)
    requires '\n' !in text
    ensures '\n' !in text + "\r"
  {
  }

  lemma SameEvents(text: string)
    requires text == "" || text[|text| - 1] != '\r'
    ensures LineEvents(text) == LineEvents(text + "\r")
    ensures LineEvents(text) == if text == "" then [] else if Parse(text).Object? then [Request(Parse(text).fields)]
                                else [InvalidJson(Parse(text).error)]
  {
    hide Parse, StripCR;
    StripsOne(text);
    match Parse(text)
    case Object(_) =>
    case Malformed(_) =>
  }

  lemma StripsOne(text: string)
    requires text == "" || text[|text| - 1] != '\r'
    ensures StripCR(text) == text && StripCR(text + "\r") == text
  {
    var longer := text + "\r";
    assert longer[|longer| - 1] == '\r' && longer[..|longer| - 1] == text;
  }

  /** And about bytes without a line end: it waits for more, and at more than 65536 of them it gives up. */
  lemma UnfinishedLaw(s: string)
    requires '\n' !in s
    ensures Receive(Fresh, s, ServerLimit) == if |s| > 65536 then (Input(s, true), [LineTooLarge]) else (Input(s, false), [])
    ensures Receive(Fresh, s, Unlimited) == (Input(s, false), [])
  {
    NoLines(s);
    assert Fresh.pending + s == s;
    assert [] + [LineTooLarge] == [LineTooLarge];
    hide Lines, Unfinished, Handled;
  }

  ghost predicate LinesFit(s: string, limit: Limit) {
    forall l | l in Lines(s) :: Fits(|l|, limit)
  }

  lemma FirstLineListed(s: string)
    requires FindChar(s, '\n').At?
    ensures s[..FindChar(s, '\n').index] in Lines(s)
  {
    assert Lines(s)[0] in Lines(s);
  }

  // A line that grows past the limit is never completed in a stream whose lines fit.
  lemma NoNewlineAfterOverflow(rest: string, more: string, limit: Limit)
    requires '\n' !in rest && !Fits(|rest|, limit) && LinesFit(rest + more, limit)
    ensures Lines(rest + more) == [] && !Fits(|Unfinished(rest + more)|, limit)
  {
    FindCharConcat(rest, more, '\n');
    hide FindChar;
    if FindChar(rest + more, '\n').At? {
      FirstLineListed(rest + more);
      assert false;
    }
  }

  lemma {:induction false} FragmentsOfFittingStream(pending: string, chunks: seq<string>, limit: Limit)
    requires '\n' !in pending && Fits(|pending|, limit)
    requires LinesFit(pending + Concat(chunks), limit)
    ensures var s := pending + Concat(chunks);
            ReceiveAll(Input(pending, false), chunks, limit).1 ==
              Handled(Lines(s)) + if Fits(|Unfinished(s)|, limit) then [] else [LineTooLarge]
    decreases |chunks|
  {
    hide Lines, Unfinished, Handled, ReceiveAll, LinesFit, Fits, Concat;
    var s := pending + Concat(chunks);
    if chunks == [] {
      NothingReceived(pending, limit);
      NoLines(pending);
    } else {
      var a, b := pending + chunks[0], Concat(chunks[1..]);
      FirstReceived(pending, chunks, limit);
      CutAnywhere(a, b);
      HandledConcat(Lines(a), Lines(Unfinished(a) + b));
      FitBehind(a, b, limit);
      if Fits(|Unfinished(a)|, limit) {
        FragmentsOfFittingStream(Unfinished(a), chunks[1..], limit);
      } else {
        NoNewlineAfterOverflow(Unfinished(a), b, limit);
        NoLines("");
      }
    }
  }

  lemma NothingReceived(pending: string, limit: Limit)
    ensures pending + Concat([]) == pending && ReceiveAll(Input(pending, false), [], limit).1 == []
  {
  }

  // The first read, and what it leaves to the others.
  lemma FirstReceived(pending: string, chunks: seq<string>, limit: Limit)
    requires chunks != []
    ensures var a := pending + chunks[0];
            && pending + Concat(chunks) == a + Concat(chunks[1..])
            && ReceiveAll(Input(pending, false), chunks, limit).1 ==
               Handled(Lines(a)) + if Fits(|Unfinished(a)|, limit)
                                   then ReceiveAll(Input(Unfinished(a), false), chunks[1..], limit).1
                                   else [LineTooLarge]
  {
    hide Lines, Unfinished, Handled, Fits;
    var a := pending + chunks[0];
    if !Fits(|Unfinished(a)|, limit) {
      ClosedIsSilent(Input(Unfinished(a), true), chunks[1..], limit);
    }
  }

  lemma FitBehind(a: string, b: string, limit: Limit)
    requires LinesFit(a + b, limit) && Lines(a + b) == Lines(a) + Lines(Unfinished(a) + b)
    ensures LinesFit(Unfinished(a) + b, limit)
  {
    hide Lines, Unfinished, Fits;
    assert forall l | l in Lines(Unfinished(a) + b) :: l in Lines(a + b);
  }

  lemma {:induction false} ClosedIsSilent(input: Input, chunks: seq<string>, limit: Limit)
    requires input.closed
    ensures ReceiveAll(input, chunks, limit).0 == input && ReceiveAll(input, chunks, limit).1 == []
    decreases |chunks|
  {
    if chunks != [] { ClosedIsSilent(input, chunks[1..], limit); }
  }

  // ---------------------------------------------------------------------------------------------
  // A line that does not fit betrays where the stream was cut
  // ---------------------------------------------------------------------------------------------

  lemma {:induction false} FirstLongLine(s: string, limit: Limit) returns (a: string, line: string, b: string)
    requires !LinesFit(s, limit)
    ensures s == a + line + "\n" + b && Unfinished(a) == "" && LinesFit(a, limit)
    ensures '\n' !in line && !Fits(|line|, limit)
    decreases |s|
  {
    hide *;
    LinesOfNoNewline(s, limit);
    var head, rest := CutFirstLine(s);
    LinesFitSplit(head, rest, limit);
    if !Fits(|head|, limit) {
      a, line, b := "", head, rest;
      LinesOfNoNewline("", limit);
      assert s == a + line + "\n" + b;
    } else {
      var a', line', b' := FirstLongLine(rest, limit);
      a, line, b := head + "\n" + a', line', b';
      LinesFitSplit(head, a', limit);
      Rejoined(head, a', line', b');
    }
  }

  lemma LinesOfNoNewline(s: string, limit: Limit)
    ensures '\n' !in s ==> LinesFit(s, limit) && Unfinished(s) == s
  {
    if '\n' !in s { NoLines(s); }
  }

  lemma CutFirstLine(s: string) returns (head: string, rest: string)
    requires '\n' in s
    ensures s == head + "\n" + rest && '\n' !in head
  {
    var i := FindChar(s, '\n').index;
    head, rest := s[..i], s[i + 1..];
    assert s == s[..i] + [s[i]] + s[i + 1..];
  }

  lemma LinesFitSplit(head: string, rest: string, limit: Limit)
    requires '\n' !in head
    ensures LinesFit(head + "\n" + rest, limit) <==> Fits(|head|, limit) && LinesFit(rest, limit)
    ensures Unfinished(head + "\n" + rest) == Unfinished(rest)
  {
    FirstLine(head, rest);
    var lines := Lines(head + "\n" + rest);
    hide Lines, Unfinished, Handled, LineEvents, FindChar;
    assert lines == [head] + Lines(rest);
    assert head in lines && forall l :: l in lines <==> l == head || l in Lines(rest);
  }

  lemma Rejoined(head: string, a: string, line: string, b: string)
    ensures head + "\n" + (a + line + "\n" + b) == (head + "\n" + a) + line + "\n" + b
  {
  }

  lemma LongLineHasEvent(line: string, limit: Limit)
    requires !Fits(|line|, limit)
    ensures |LineEvents(line)| == 1 && !LineEvents(line)[0].LineTooLarge?
  {
  }

  // Cut before the newline of the long line: the connection is closed.
  lemma CutInLongLine(a: string, line: string, b: string, limit: Limit)
    requires Unfinished(a) == "" && '\n' !in line && !Fits(|line|, limit)
    ensures EventsOf([a + line, "\n" + b], limit) == Handled(Lines(a)) + [LineTooLarge]
  {
    var front := a + line;
    hide Handled, Lines, Unfinished;
    CutAnywhere(a, line);
    assert "" + line == line && Fresh.pending + front == front;
    NoLines(line);
    assert Lines(a) + [] == Lines(a);
    var chunks := [front, "\n" + b];
    var first := Receive(Fresh, front, limit);
    ClosedIsSilent(first.0, chunks[1..], limit);
    assert first.1 + [] == first.1;
  }

  lemma OneRead(s: string, limit: Limit)
    ensures Handled(Lines(s)) <= EventsOf([s], limit)
  {
    hide Handled, Lines, Unfinished;
    assert Fresh.pending + s == s && [s][1..] == [];
    var first := Receive(Fresh, s, limit);
    assert EventsOf([s], limit) == first.1 + ReceiveAll(first.0, [], limit).1;
  }

  // Not cut at all: the long line is handled.
  lemma LongLineInOneRead(a: string, line: string, b: string, limit: Limit)
    requires Unfinished(a) == "" && '\n' !in line
    ensures Handled(Lines(a)) + LineEvents(line) <= EventsOf([a + line + "\n" + b], limit)
  {
    hide *;
    var rest := line + "\n" + b;
    assert a + line + "\n" + b == a + rest && "" + rest == rest;
    CutAnywhere(a, rest);
    FirstLine(line, b);
    HandledConcat(Lines(a), Lines(rest));
    OneRead(a + rest, limit);
  }

  lemma CutBetraysLongLine(s: string, limit: Limit)
    requires !LinesFit(s, limit)
    ensures exists chunks :: Concat(chunks) == s && EventsOf(chunks, limit) != EventsOf([s], limit)
  {
    hide *;
    var a, line, b := FirstLongLine(s, limit);
    var chunks := [a + line, "\n" + b];
    CutInLongLine(a, line, b, limit);
    LongLineInOneRead(a, line, b, limit);
    LongLineHasEvent(line, limit);
    ConcatOfTwo(a + line, "\n" + b);
    assert a + line + ("\n" + b) == s;
    var n := |Handled(Lines(a))|;
    assert EventsOf([s], limit)[n] == LineEvents(line)[0];
    assert EventsOf(chunks, limit)[n] == LineTooLarge;
  }

  lemma ConcatOfTwo(a: string, b: string)
    ensures Concat([a, b]) == a + b
  {
    assert [a, b][1..] == [b] && Concat([b]) == b + "";
  }

  /** What a receiver handles does not depend on how the stream was split into reads exactly when every
      complete line fits its limit (the unfinished last one may be of any length); so it never does for a
      receiver without a limit. */
  lemma FragmentationIsInvisibleIffLinesFit(s: string, limit: Limit)
    ensures (forall chunks | Concat(chunks) == s :: EventsOf(chunks, limit) == EventsOf([s], limit)) <==> LinesFit(s, limit)
    ensures limit.Unlimited? ==> LinesFit(s, limit)
  {
    if LinesFit(s, limit) {
      assert Concat([s]) == s + "" == s;
      assert "" + Concat([s]) == s;
      FragmentsOfFittingStream("", [s], limit);
      forall chunks | Concat(chunks) == s ensures EventsOf(chunks, limit) == EventsOf([s], limit) {
        assert "" + Concat(chunks) == s && "" + Concat([s]) == s;
        FragmentsOfFittingStream("", chunks, limit);
      }
    } else {
      CutBetraysLongLine(s, limit);
    }
  }

  // ---------------------------------------------------------------------------------------------
  // The client
  // ---------------------------------------------------------------------------------------------

  // The lines as a client shows them, and what they read as.
  function Stripped(lines: seq<string>): seq<string> {
    if lines == [] then [] else [StripCR(lines[0])] + Stripped(lines[1..])
  }

  function ReadOf(texts: seq<string>): seq<Event> {
    if texts == [] then [] else TextEvents(texts[0]) + ReadOf(texts[1..])
  }

  lemma {:induction false} ReadOfStripped(lines: seq<string>)
    ensures ReadOf(Stripped(lines)) == Handled(lines)
  {
    hide TextEvents, StripCR;
    if lines != [] {
      ReadOfStripped(lines[1..]);
      assert Stripped(lines)[1..] == Stripped(lines[1..]);
    }
  }

  /** ChatClient::onMessage: every complete line is shown, however long; what is shown reads as the events
      of a receiver without a limit. */
  method ShowLines(buffer: Buffer) returns (shown: seq<string>)
    requires buffer.Valid()
    modifies buffer
    ensures buffer.Valid()
    ensures shown == Stripped(Lines(old(buffer.Readable()))) && buffer.Readable() == Unfinished(old(buffer.Readable()))
    ensures (Input(buffer.Readable(), false), ReadOf(shown)) == Receive(Fresh, old(buffer.Readable()), Unlimited)
  {
    hide Lines, Unfinished, Handled, FindChar, ReadOf, Stripped;
    shown := [];
    ghost var s := buffer.Readable();
    while true
      invariant buffer.Valid()
      invariant shown + Stripped(Lines(buffer.Readable())) == Stripped(Lines(s))
      invariant Unfinished(buffer.Readable()) == Unfinished(s)
      decreases |buffer.Readable()|
    {
      ghost var here := buffer.Readable();
      var eol := buffer.FindEOL();
      if eol.NotFound? {
        NoLines(here);
        NothingStripped();
        break;
      }
      var message := buffer.RetrieveAsString(eol.index);
      ghost var rest := here[eol.index + 1..];
      assert here == message + "\n" + rest;
      LineShown(shown, here, message, rest, s);
      buffer.Retrieve(1);
      assert buffer.Readable() == rest;
      if message != "" && message[|message| - 1] == '\r' { message := message[..|message| - 1]; }
      shown := shown + [message];
    }
    assert Fresh.pending + s == s && shown + [] == shown;
    ReadOfStripped(Lines(s));
  }

  lemma NothingStripped()
    ensures Stripped([]) == []
  {
  }

  lemma LineShown(before: seq<string>, here: string, line: string, rest: string, s: string)
    requires here == line + "\n" + rest && '\n' !in line
    requires before + Stripped(Lines(here)) == Stripped(Lines(s)) && Unfinished(here) == Unfinished(s)
    ensures before + [StripCR(line)] + Stripped(Lines(rest)) == Stripped(Lines(s)) && Unfinished(rest) == Unfinished(s)
  {
    hide *;
    FirstLine(line, rest);
    FirstStripped(line, Lines(rest));
    assert before + ([StripCR(line)] + Stripped(Lines(rest))) == before + [StripCR(line)] + Stripped(Lines(rest));
  }

  lemma FirstStripped(line: string, lines: seq<string>)
    ensures Stripped([line] + lines) == [StripCR(line)] + Stripped(lines)
  {
    assert ([line] + lines)[1..] == lines;
  }

  // ---------------------------------------------------------------------------------------------
  // From writer to reader
  // ---------------------------------------------------------------------------------------------

  function Joined(objects: seq<JsonObject>): string {
    if objects == [] then "" else MakeJsonLine(objects[0]) + Joined(objects[1..])
  }

  function Texts(objects: seq<JsonObject>): seq<string> {
    if objects == [] then [] else [Serialize(objects[0])] + Texts(objects[1..])
  }

  function Requests(objects: seq<JsonObject>): seq<Event> {
    if objects == [] then [] else [Request(objects[0])] + Requests(objects[1..])
  }

  lemma LineIsItsObject(fields: JsonObject, more: string)
    ensures var line := MakeJsonLine(fields);
            && LineEvents(Serialize(fields)) == [Request(fields)]
            && Lines(line + more) == [Serialize(fields)] + Lines(more)
            && Unfinished(line + more) == Unfinished(more)
  {
    var text := Serialize(fields);
    SerializeThenParse(fields);
    SerializeHasNoControls(fields);
    assert text[|text| - 1] == '}';
    hide Serialize, Parse;
    assert '\n' !in text;
    FirstLine(text, more);
    hide Lines, Unfinished, FindChar, Handled;
    assert MakeJsonLine(fields) + more == text + "\n" + more;
  }

  lemma {:induction false} JoinedLines(objects: seq<JsonObject>)
    ensures Lines(Joined(objects)) == Texts(objects) && Unfinished(Joined(objects)) == ""
    ensures Handled(Texts(objects)) == Requests(objects)
    decreases |objects|
  {
    hide Serialize, LineEvents, MakeJsonLine, Lines, Unfinished;
    if objects == [] {
      NoLines("");
    } else {
      JoinedLines(objects[1..]);
      LineIsItsObject(objects[0], Joined(objects[1..]));
      assert Texts(objects)[1..] == Texts(objects[1..]);
    }
  }

  ghost predicate TextsFit(objects: seq<JsonObject>, limit: Limit) {
    forall o | o in objects :: Fits(|Serialize(o)|, limit)
  }

  lemma {:induction false} TextsOfFitting(objects: seq<JsonObject>, limit: Limit)
    requires TextsFit(objects, limit)
    ensures forall l | l in Texts(objects) :: Fits(|l|, limit)
  {
    hide Serialize;
    if objects != [] { TextsOfFitting(objects[1..], limit); }
  }

  /** A stream of JSON lines is handled as exactly the objects that were written, in order, however it is
      cut, if each fits the receiver's limit. */
  lemma WrittenObjectsArrive(objects: seq<JsonObject>, chunks: seq<string>, limit: Limit)
    requires TextsFit(objects, limit) && Concat(chunks) == Joined(objects)
    ensures EventsOf(chunks, limit) == Requests(objects)
  {
    hide Serialize, Handled, Lines, Unfinished, Joined, Texts, Requests, TextsFit;
    JoinedLines(objects);
    TextsOfFitting(objects, limit);
    assert "" + Concat(chunks) == Joined(objects);
    FragmentsOfFittingStream("", chunks, limit);
  }
}
