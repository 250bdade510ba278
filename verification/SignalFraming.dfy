/** Forwarded signaling as the receiver's loop sees it: the event built around a payload is cut into lines
    like any other text (server/ChatServer.cc:127-144, client/ChatClient.cc:104-124). */
module SignalFraming {
  import opened Json
  import opened JsonRoundTrip
  import opened JsonSignaling
  import opened Framing

  /** However the line arrives, a receiver with this limit, or none, takes it as exactly one object with
      these fields. */
  ghost predicate HandledAs(line: string, fields: JsonObject, limit: Limit) {
    forall chunks | Concat(chunks) == line :: EventsOf(chunks, limit) == [Request(fields)]
  }

  // A line that holds no newline but its last byte.
  lemma OneLine(text: string)
    requires '\n' !in text
    ensures Lines(text + "\n") == [text] && Unfinished(text + "\n") == ""
    ensures Handled(Lines(text + "\n")) == LineEvents(text)
  {
    FirstLine(text, "");
    NoLines("");
    hide Lines, Unfinished, Handled, LineEvents;
    assert text + "\n" + "" == text + "\n";
    assert LineEvents(text) + [] == LineEvents(text);
  }

  lemma InOneRead(s: string, limit: Limit)
    requires Unfinished(s) == ""
    ensures Concat([s]) == s && EventsOf([s], limit) == Handled(Lines(s))
  {
    hide Handled, Lines, Unfinished;
    assert Fresh.pending + s == s && [s][1..] == [] && s + "" == s;
    var first := Receive(Fresh, s, limit);
    assert EventsOf([s], limit) == first.1 + ReceiveAll(first.0, [], limit).1;
  }

  /** A line without a newline inside is handled as the object it parses to, however it arrives, if and only
      if it fits the receiver's limit. */
  lemma LineHandledIff(text: string, fields: JsonObject, limit: Limit)
    requires '\n' !in text && StripCR(text) == text && text != ""
    ensures HandledAs(text + "\n", fields, limit) <==> Parse(text) == Object(fields) && Fits(|text|, limit)
  {
    var line := text + "\n";
    OneLine(text);
    InOneRead(line, limit);
    assert LineEvents(text) == TextEvents(text);
    hide Handled, Lines, Unfinished, Concat, EventsOf, LineEvents, StripCR;
    assert EventsOf([line], limit) == [Request(fields)] <==> Parse(text) == Object(fields);
    hide Parse, TextEvents;
    FragmentationIsInvisibleIffLinesFit(line, limit);
    assert LinesFit(line, limit) <==> Fits(|text|, limit) by { assert Lines(line)[0] == text; }
  }

  // ---------------------------------------------------------------------------------------------
  // A payload with a newline
  // ---------------------------------------------------------------------------------------------

  // The value first read under a key never ends up longer than the text behind the key.
  lemma NamedValueIsShort(t: string, p: nat, key: Read, fields: JsonObject)
    requires p < |t| && key == ReadKey(t, p, ExpectedColon) && key.Got? && ReadMembers(t, p, fields).Object?
    ensures key.text in ReadMembers(t, p, fields).fields
    ensures |ReadMembers(t, p, fields).fields[key.text]| < |t| - key.pos
  {
    hide ReadKey, ReadValue, SkipSpace;
    var value := ReadValue(t, key.pos);
    var next := SkipSpace(t, value.pos);
    if t[next] == ',' {
      NewValuesAreShort(t, SkipSpace(t, next + 1), fields[key.text := value.text]);
      MembersKeepKeys(t, SkipSpace(t, next + 1), fields[key.text := value.text]);
    }
  }

  function Opening(kind: string, sender: string, target: string, callId: string, name: string): string {
    "{" + Head(kind, sender, target, callId) + "," + (Quote(name) + ":")
  }

  // Behind the key there is too little text for the whole payload.
  lemma TailTooShort(kind: string, sender: string, target: string, callId: string, name: string, payload: string, w: string)
    requires w != "" && w[0] == '{' && |w| <= |payload|
    ensures Parse(Opening(kind, sender, target, callId, name) + w)
            != Object(SignalingFields(kind, sender, target, callId)[name := payload])
  {
    hide *;
    var t, p := Opening(kind, sender, target, callId, name) + w, 1 + |Head(kind, sender, target, callId)| + 1;
    OpeningRead(kind, sender, target, callId, name, w);
    var fields := SignalingFields(kind, sender, target, callId);
    if ReadMembers(t, p, fields).Object? { NamedValueIsShort(t, p, ReadKey(t, p, ExpectedColon), fields); }
  }

  // The members and the key in front of the last value are read.
  lemma OpeningRead(kind: string, sender: string, target: string, callId: string, name: string, w: string)
    requires w != "" && w[0] == '{'
    ensures var t, p := Opening(kind, sender, target, callId, name) + w, 1 + |Head(kind, sender, target, callId)| + 1;
            var q := p + |Quote(name)| + 1;
            && p < q && |t| == q + |w| && ReadKey(t, p, ExpectedColon) == Got(q, name)
            && Parse(t) == ReadMembers(t, p, SignalingFields(kind, sender, target, callId))
  {
    hide Head, Quote, Parse, ReadMembers, SignalingFields, Matches, ReadKey, Opening;
    var head, quoted := Head(kind, sender, target, callId), Quote(name);
    var t, p := Opening(kind, sender, target, callId, name) + w, 1 + |head| + 1;
    OpeningIs(kind, sender, target, callId, name, w);
    QuoteStart(name);
    KeyStart(quoted, w);
    HeadRead(t, kind, sender, target, callId, quoted + ":" + w);
    KeyAt(t, p, quoted, w);
    MatchesSlice(t, p, quoted + ":");
    KeyRead(t, p, name, ExpectedColon);
  }

  lemma OpeningIs(kind: string, sender: string, target: string, callId: string, name: string, w: string)
    ensures Opening(kind, sender, target, callId, name) + w ==
            "{" + Head(kind, sender, target, callId) + "," + (Quote(name) + ":" + w)
  {
    hide Head, Quote;
  }

  lemma KeyStart(quoted: string, w: string)
    requires quoted != ""
    ensures quoted + ":" + w != "" && (quoted + ":" + w)[0] == quoted[0]
  {
  }

  lemma KeyAt(t: string, p: nat, quoted: string, w: string)
    requires p <= |t| && t[p..] == quoted + ":" + w && w != ""
    ensures var q := p + |quoted| + 1; |t| == q + |w| && t[p..q] == quoted + ":" && t[q] == w[0]
  {
    var q := p + |quoted| + 1;
    assert t[p..q] == t[p..][..|quoted| + 1];
    assert t[q] == t[p..][|quoted| + 1];
  }

  lemma StripTail(opening: string, tail: string)
    requires tail != "" && tail[0] != '\r'
    ensures StripCR(opening + tail) == opening + StripCR(tail)
    ensures StripCR(tail) != "" && StripCR(tail)[0] == tail[0] && |StripCR(tail)| <= |tail|
  {
    var s := opening + tail;
    assert s[|s| - 1] == tail[|tail| - 1];
    assert s[..|s| - 1] == opening + tail[..|tail| - 1];
  }

  // The line the receiver cuts off first, of an event whose payload holds a newline.
  lemma FirstPiece(kind: string, sender: string, target: string, callId: string, name: string, payload: string, front: string)
    requires front != "" && front[0] == '{' && |front| <= |payload|
    ensures var first := Opening(kind, sender, target, callId, name) + front;
            && |LineEvents(first)| == 1
            && LineEvents(first)[0] != Request(SignalingFields(kind, sender, target, callId)[name := payload])
  {
    hide Opening, SignalingFields, Parse, StripCR;
    StripTail(Opening(kind, sender, target, callId, name), front);
    TailTooShort(kind, sender, target, callId, name, payload, StripCR(front));
  }

  // Where the payload, and so the event, is cut.
  lemma EventAround(kind: string, sender: string, target: string, callId: string, name: string, payload: string, k: nat)
    requires k < |payload| && payload[k] == '\n' && '\n' !in payload[..k]
    ensures var first := Opening(kind, sender, target, callId, name) + payload[..k];
            && '\n' !in first
            && SignalingEvent(kind, sender, target, callId, name, payload) == first + "\n" + (payload[k + 1..] + "}" + "\n")
  {
    var opening := Opening(kind, sender, target, callId, name);
    OpeningHasNoNewline(kind, sender, target, callId, name);
    EventByOpening(kind, sender, target, callId, name, payload);
    hide Opening, SignalingEvent;
    CutText(opening, payload, k);
  }

  lemma CutText(opening: string, payload: string, k: nat)
    requires k < |payload| && payload[k] == '\n'
    ensures opening + payload + "}\n" == opening + payload[..k] + "\n" + (payload[k + 1..] + "}" + "\n")
  {
    assert payload == payload[..k] + "\n" + payload[k + 1..];
  }

  lemma OpeningHasNoNewline(kind: string, sender: string, target: string, callId: string, name: string)
    ensures '\n' !in Opening(kind, sender, target, callId, name) && Opening(kind, sender, target, callId, name) != ""
  {
    HeadHasNoNewline(kind, sender, target, callId);
    QuoteHasNoNewline(name);
    hide Head, Quote;
  }

  lemma EventByOpening(kind: string, sender: string, target: string, callId: string, name: string, payload: string)
    ensures SignalingEvent(kind, sender, target, callId, name, payload)
            == Opening(kind, sender, target, callId, name) + payload + "}\n"
  {
    hide Head, Quote;
    var a := "{" + Head(kind, sender, target, callId) + ",";
    assert a + Quote(name) + ":" == a + (Quote(name) + ":");
  }

  lemma NewlineIsNotHandled(kind: string, sender: string, target: string, callId: string, name: string, payload: string,
                            limit: Limit)
    requires payload != "" && payload[0] == '{' && '\n' in payload
    ensures !HandledAs(SignalingEvent(kind, sender, target, callId, name, payload),
                       SignalingFields(kind, sender, target, callId)[name := payload], limit)
  {
    hide *;
    var k := FirstNewline(payload);
    var line := SignalingEvent(kind, sender, target, callId, name, payload);
    var fields := SignalingFields(kind, sender, target, callId)[name := payload];
    var first, rest := Opening(kind, sender, target, callId, name) + payload[..k], payload[k + 1..] + "}";
    EventAround(kind, sender, target, callId, name, payload, k);
    FirstPiece(kind, sender, target, callId, name, payload, payload[..k]);
    FirstLine(first, rest + "\n");
    EndsWithNewline(rest);
    InOneRead(line, limit);
    OtherEvent(line, fields, LineEvents(first), Handled(Lines(rest + "\n")), limit);
  }

  lemma FirstNewline(payload: string) returns (k: nat)
    requires payload != "" && payload[0] == '{' && '\n' in payload
    ensures 0 < k < |payload| && payload[k] == '\n' && '\n' !in payload[..k]
    ensures payload[..k] != "" && payload[..k][0] == '{'
  {
    k := Buffers.FindChar(payload, '\n').index;
  }

  lemma OtherEvent(line: string, fields: JsonObject, first: seq<Event>, others: seq<Event>, limit: Limit)
    requires |first| == 1 && first[0] != Request(fields) && Concat([line]) == line && EventsOf([line], limit) == first + others
    ensures !HandledAs(line, fields, limit)
  {
    hide Concat, EventsOf;
    assert EventsOf([line], limit)[0] == first[0];
  }

  lemma {:induction false} EndsWithNewline(s: string)
    ensures Unfinished(s + "\n") == ""
    decreases |s|
  {
    hide Buffers.FindChar, Handled, Lines, LineEvents;
    if '\n' in s {
      var i := Buffers.FindChar(s, '\n').index;
      var rest := s[i + 1..];
      EndsWithNewline(rest);
      assert s + "\n" == s[..i] + "\n" + (rest + "\n");
      FirstLine(s[..i], rest + "\n");
    } else {
      OneLine(s);
    }
  }

  // ---------------------------------------------------------------------------------------------
  // Exactly when
  // ---------------------------------------------------------------------------------------------

  /** A receiver takes the event built around an accepted payload as the four fields and the payload, in
      every split of its bytes into reads, if and only if the payload is one object and holds no newline,
      and, if it has a limit, the line fits it. */
  lemma SignalingHandledIff(kind: string, sender: string, target: string, callId: string, name: string, payload: string,
                            limit: Limit)
    requires payload != "" && payload[0] == '{'
    ensures var line := SignalingEvent(kind, sender, target, callId, name, payload);
            && |line| > 0
            && (HandledAs(line, SignalingFields(kind, sender, target, callId)[name := payload], limit)
                <==> IsObjectText(payload) && '\n' !in payload && Fits(|line| - 1, limit))
  {
    hide *;
    var line := SignalingEvent(kind, sender, target, callId, name, payload);
    if '\n' in payload {
      NewlineIsNotHandled(kind, sender, target, callId, name, payload, limit);
      EndsAsLine(kind, sender, target, callId, name, payload);
    } else {
      var text := TextOfEvent(kind, sender, target, callId, name, payload);
      ForwardedIffObject(kind, sender, target, callId, name, payload);
      assert line[..|line| - 1] == text;
      LineHandledIff(text, SignalingFields(kind, sender, target, callId)[name := payload], limit);
    }
  }

  lemma EndsAsLine(kind: string, sender: string, target: string, callId: string, name: string, payload: string)
    ensures SignalingEvent(kind, sender, target, callId, name, payload) != ""
  {
    hide Head, Quote;
  }

  lemma TextOfEvent(kind: string, sender: string, target: string, callId: string, name: string, payload: string)
    returns (text: string)
    requires '\n' !in payload
    ensures SignalingEvent(kind, sender, target, callId, name, payload) == text + "\n"
    ensures '\n' !in text && text != "" && StripCR(text) == text
  {
    text := Opening(kind, sender, target, callId, name) + payload + "}";
    OpeningHasNoNewline(kind, sender, target, callId, name);
    EventByOpening(kind, sender, target, callId, name, payload);
    hide Opening, SignalingEvent;
    assert Opening(kind, sender, target, callId, name) + payload + "}\n" == text + "\n";
  }

  /** A payload sliced as an object out of a line that was cut off is such a payload. */
  lemma SlicedPayloadQualifies(line: string, p: nat)
    requires '\n' !in line && p < |line| && line[p] == '{' && ReadValue(line, p).Got?
    ensures var payload := ReadValue(line, p).text; IsObjectText(payload) && '\n' !in payload
  {
    SlicedIsObjectText(line, p);
    hide SkipValue;
  }

  /** A string field is not, if an escape puts a newline into it: the request is read, the payload passes the
      server's guard, and is even one object, but no receiver takes the event as it was meant. */
  lemma NewlineInStringField(fields: JsonObject, kind: string, sender: string, target: string, callId: string, name: string,
                             limit: Limit)
    requires name in fields && fields[name] == "{\n}" && Fits(|Serialize(fields)|, ServerLimit)
    ensures HandledAs(MakeJsonLine(fields), fields, ServerLimit) && IsObjectText(fields[name])
    ensures !HandledAs(SignalingEvent(kind, sender, target, callId, name, fields[name]),
                       SignalingFields(kind, sender, target, callId)[name := fields[name]], limit)
  {
    SerializeThenParse(fields);
    SerializeHasNoControls(fields);
    EndsInBrace(fields);
    hide *;
    LineHandledIff(Serialize(fields), fields, ServerLimit);
    IsLine(fields);
    BrokenObject();
    SignalingHandledIff(kind, sender, target, callId, name, fields[name], limit);
  }

  lemma EndsInBrace(fields: JsonObject)
    ensures '\n' !in Serialize(fields) && Serialize(fields) != "" && StripCR(Serialize(fields)) == Serialize(fields)
  {
    SerializeHasNoControls(fields);
  }

  lemma IsLine(fields: JsonObject)
    ensures MakeJsonLine(fields) == Serialize(fields) + "\n"
  {
  }

  lemma BrokenObject()
    ensures IsObjectText("{\n}") && '\n' in "{\n}"
  {
    assert "{\n}"[1] == '\n';
    assert SkipSpace("{\n}", 0) == 0 && SkipSpace("{\n}", 2) == 2 && SkipSpace("{\n}", 1) == 2;
  }
}
