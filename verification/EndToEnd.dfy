/** From one side's writes to the other side's handlers, as from ChatClient::write to ChatServer::onMessage:
    the writer's output buffer, the bytes the kernel took so far, the reads they arrive in, and the
    requests they are handled as. */
module EndToEnd {
  import opened Json
  import opened Framing
  import T = TcpConnections

  lemma {:induction false} TextsOfPrefix(objects: seq<JsonObject>, n: nat)
    requires n <= |objects|
    ensures |Texts(objects)| == |objects| && Texts(objects[..n]) == Texts(objects)[..n]
    decreases |objects|
  {
    hide Serialize;
    if objects != [] {
      if n > 0 {
        TextsOfPrefix(objects[1..], n - 1);
        assert objects[..n][1..] == objects[1..][..n - 1];
        assert Texts(objects) == [Serialize(objects[0])] + Texts(objects[1..]);
      } else {
        TextsOfPrefix(objects[1..], 0);
      }
    }
  }

  // A stream of lines, cut anywhere: whole lines, and the beginning of the next one.
  lemma PrefixOfJoined(objects: seq<JsonObject>, p: string, rest: string) returns (n: nat)
    requires p + rest == Joined(objects)
    ensures n <= |objects| && Lines(p) == Texts(objects[..n])
    ensures n < |objects| ==> |Unfinished(p)| <= |Serialize(objects[n])|
    ensures n == |objects| ==> Unfinished(p) == ""
    ensures rest == "" ==> n == |objects|
  {
    hide *;
    JoinedLines(objects);
    CutAnywhere(p, rest);
    n := |Lines(p)|;
    var more := Unfinished(p) + rest;
    assert Texts(objects)[..n] == Lines(p) && Texts(objects)[n..] == Lines(more);
    TextsOfPrefix(objects, |objects|);
    TextsOfPrefix(objects, n);
    if n < |objects| {
      assert Lines(more)[0] == Texts(objects)[n];
      TextAt(objects, n);
      FirstLineIsLong(Unfinished(p), rest);
    } else {
      assert Lines(more) == [];
      NoMoreLines(more);
    }
    if rest == "" {
      assert more == Unfinished(p);
      NoLines(more);
    }
  }

  lemma {:induction false} TextAt(objects: seq<JsonObject>, n: nat)
    requires n < |objects|
    ensures n < |Texts(objects)| && Texts(objects)[n] == Serialize(objects[n])
    decreases n
  {
    hide Serialize;
    if n > 0 { TextAt(objects[1..], n - 1); }
  }

  // The first line of a stream holds all of a front that has no newline.
  lemma FirstLineIsLong(front: string, rest: string)
    requires '\n' !in front && Lines(front + rest) != []
    ensures |front| <= |Lines(front + rest)[0]|
  {
    FindCharConcat(front, rest, '\n');
    hide Buffers.FindChar;
  }

  lemma NoMoreLines(s: string)
    requires Lines(s) == []
    ensures Unfinished(s) == s
  {
  }

  lemma WrittenOutAt(objects: seq<JsonObject>, p: string, rest: string, chunks: seq<string>, limit: Limit) returns (n: nat)
    requires TextsFit(objects, limit) && p + rest == Joined(objects) && Concat(chunks) == p
    ensures n <= |objects| && EventsOf(chunks, limit) == Requests(objects[..n])
    ensures rest == "" ==> n == |objects|
  {
    hide Serialize, Handled, Lines, Unfinished, Joined, Texts, Requests, TextsFit, LinesFit, Concat, ReceiveAll;
    n := PrefixOfJoined(objects, p, rest);
    PrefixFits(objects, n, limit);
    TextsOfFitting(objects[..n], limit);
    JoinedLines(objects[..n]);
    FitsIs(p, objects[..n], limit);
    assert "" + Concat(chunks) == p;
    FragmentsOfFittingStream("", chunks, limit);
    assert Requests(objects[..n]) + [] == Requests(objects[..n]);
  }

  lemma PrefixFits(objects: seq<JsonObject>, n: nat, limit: Limit)
    requires TextsFit(objects, limit) && n <= |objects|
    ensures TextsFit(objects[..n], limit)
    ensures n < |objects| ==> Fits(|Serialize(objects[n])|, limit)
  {
    hide Serialize;
    assert forall o | o in objects[..n] :: o in objects;
    if n < |objects| { assert objects[n] in objects; }
  }

  lemma FitsIs(p: string, objects: seq<JsonObject>, limit: Limit)
    requires Lines(p) == Texts(objects) && forall l | l in Texts(objects) :: Fits(|l|, limit)
    ensures LinesFit(p, limit)
  {
    hide Lines, Texts;
  }

  /** Whatever the kernels have made of the writes and the reads so far, if no write failed for good, the
      requests handled are a prefix of the objects sent; and all of them once the writer's buffer has
      drained and everything on the wire was read. */
  lemma HandledIsPrefixOfSent(events: seq<T.Event>, objects: seq<JsonObject>, chunks: seq<string>, limit: Limit)
    requires T.LegalRun(T.Created, events) && forall e | e in events :: !T.FailsForGood(e)
    requires T.AllAccepted(T.Created, events) == Joined(objects) && TextsFit(objects, limit)
    requires Concat(chunks) <= T.Run(T.Created, events).wire
    ensures exists n: nat | n <= |objects| :: EventsOf(chunks, limit) == Requests(objects[..n])
    ensures T.Run(T.Created, events).output == "" && Concat(chunks) == T.Run(T.Created, events).wire ==>
              EventsOf(chunks, limit) == Requests(objects)
  {
    hide *;
    T.CreatedInv();
    T.OutputIsConserved(events);
    var c := T.Run(T.Created, events);
    var p := Concat(chunks);
    var rest := c.wire[|p|..] + c.output;
    assert c.wire == p + c.wire[|p|..];
    assert p + rest == c.wire + c.output;
    var n := WrittenOutAt(objects, p, rest, chunks, limit);
    assert objects[..|objects|] == objects;
  }
}
