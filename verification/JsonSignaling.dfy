/** Signaling payloads are forwarded as they were written: ChatServer::buildSignalingEvent splices the
    text sliced out of the request into the line it sends (server/ChatServer.cc:127-144). */
module JsonSignaling {
  import opened Json
  import opened JsonRoundTrip

  // ---------------------------------------------------------------------------------------------
  // Locality: what is read depends only on the bytes it spans
  // ---------------------------------------------------------------------------------------------

  // t[lo..hi] is what t' holds, d further on.
  ghost predicate Same(t: string, lo: nat, hi: nat, t': string, d: int) {
    && lo <= hi <= |t| && 0 <= lo + d && hi + d <= |t'|
    && forall i | lo <= i < hi :: t[i] == t'[i + d]
  }

  lemma {:induction false} SpaceLocal(t: string, p: nat, hi: nat, t': string, d: int)
    requires Same(t, p, hi, t', d) && SkipSpace(t, p) < hi
    ensures SkipSpace(t', p + d) == SkipSpace(t, p) + d
    decreases hi - p
  {
    assert t[p] == t'[p + d];
    if IsSpace(t[p]) { SpaceLocal(t, p + 1, hi, t', d); }
  }

  lemma {:induction false} DigitsLocal(t: string, p: nat, hi: nat, t': string, d: int)
    requires Same(t, p, hi, t', d) && SkipDigits(t, p) < hi
    ensures SkipDigits(t', p + d) == SkipDigits(t, p) + d
    decreases hi - p
  {
    assert t[p] == t'[p + d];
    if IsDigit(t[p]) { DigitsLocal(t, p + 1, hi, t', d); }
  }

  lemma {:induction false} HexLocal(t: string, p: nat, n: nat, t': string, d: int)
    requires Same(t, p, p + n, t', d)
    ensures AllHex(t, p, n) <==> AllHex(t', p + d, n)
    ensures AllHex(t, p, n) ==> HexNumber(t, p, n) == HexNumber(t', p + d, n)
    decreases n
  {
    assert forall i | p <= i < p + n :: t[i] == t'[i + d];
    assert forall i | p + d <= i < p + d + n :: t'[i] == t[i - d];
    if n > 0 { HexLocal(t, p, n - 1, t', d); }
  }

  lemma {:induction false} StringLocal(t: string, p: nat, hi: nat, t': string, d: int)
    requires Same(t, p, hi, t', d)
    requires StringRest(t, p).Got? && StringRest(t, p).pos <= hi
    ensures StringRest(t', p + d) == Got(StringRest(t, p).pos + d, StringRest(t, p).text)
    decreases hi - p
  {
    assert t[p] == t'[p + d];
    if t[p] == '"' {
    } else if t[p] == '\\' {
      assert t[p + 1] == t'[p + 1 + d];
      if IsSimpleEscape(t[p + 1]) {
        StringLocal(t, p + 2, hi, t', d);
      } else {
        HexLocal(t, p + 2, 4, t', d);
        StringLocal(t, p + 6, hi, t', d);
      }
    } else {
      StringLocal(t, p + 1, hi, t', d);
    }
  }

  lemma NumberLocal(t: string, p: nat, hi: nat, t': string, d: int)
    requires Same(t, p, hi, t', d)
    requires SkipNumber(t, p).At? && SkipNumber(t, p).pos < hi
    ensures SkipNumber(t', p + d) == At(SkipNumber(t, p).pos + d)
  {
    hide SkipNumber, SkipDigits, SkipFraction, SkipExponent, Same;
    var start := SkipOne(t, p, '-', '-');
    var q := SkipDigits(t, start);
    NumberParts(t, p, start, q);
    var f := SkipFraction(t, q);
    SameTail(t, p, p, hi, t', d);
    SameTail(t, p, start, hi, t', d);
    SameTail(t, p, q, hi, t', d);
    SameTail(t, p, f.pos, hi, t', d);
    DigitsLocal(t, start, hi, t', d);
    FractionLocal(t, q, hi, t', d);
    ExponentLocal(t, f.pos, hi, t', d);
    NumberParts(t', p + d, start + d, q + d);
  }

  lemma SameTail(t: string, p: nat, q: nat, hi: nat, t': string, d: int)
    requires Same(t, p, hi, t', d) && p <= q <= hi
    ensures Same(t, q, hi, t', d) && (q < hi ==> q < |t| && 0 <= q + d < |t'| && t[q] == t'[q + d])
  {
  }

  lemma FractionLocal(t: string, p: nat, hi: nat, t': string, d: int)
    requires Same(t, p, hi, t', d) && p < hi
    requires SkipFraction(t, p).At? && SkipFraction(t, p).pos < hi
    ensures SkipFraction(t', p + d) == At(SkipFraction(t, p).pos + d)
  {
    assert t[p] == t'[p + d];
    if t[p] == '.' { DigitsLocal(t, p + 1, hi, t', d); }
  }

  lemma ExponentLocal(t: string, p: nat, hi: nat, t': string, d: int)
    requires Same(t, p, hi, t', d) && p < hi
    requires SkipExponent(t, p).At? && SkipExponent(t, p).pos < hi
    ensures SkipExponent(t', p + d) == At(SkipExponent(t, p).pos + d)
  {
    assert t[p] == t'[p + d];
    if t[p] == 'e' || t[p] == 'E' {
      assert t[p + 1] == t'[p + 1 + d];
      DigitsLocal(t, SkipOne(t, p + 1, '+', '-'), hi, t', d);
    }
  }

  lemma LiteralLocal(t: string, p: nat, hi: nat, t': string, d: int, literal: string)
    requires Same(t, p, hi, t', d) && literal != ""
    requires SkipLiteral(t, p, literal).At? && SkipLiteral(t, p, literal).pos <= hi
    ensures SkipLiteral(t', p + d, literal) == At(SkipLiteral(t, p, literal).pos + d)
  {
    var e := p + |literal|;
    assert t[p..e] == t'[p + d..e + d];
  }

  // A number is the one value whose end is seen only in the byte after it.
  predicate IsNumberAt(t: string, q: nat)
    requires q < |t|
  {
    t[q] != '"' && !StartsRaw(t[q])
  }

  /** consumeJsonValue looks at nothing outside the span it consumes, plus the byte that ends a number. */
  lemma {:induction false} ValueLocal(t: string, p: nat, hi: nat, t': string, d: int)
    requires Same(t, p, hi, t', d)
    requires SkipValue(t, p).At? && SkipValue(t, p).pos <= hi
    requires SkipValue(t, p).pos < hi || !IsNumberAt(t, SkipSpace(t, p))
    ensures SkipValue(t', p + d) == At(SkipValue(t, p).pos + d)
    decreases hi - p, 2
  {
    hide StringRest, SkipNumber, SkipLiteral, SkipObject, SkipArray;
    var q := SkipSpace(t, p);
    SpaceLocal(t, p, hi, t', d);
    assert t[q] == t'[q + d];
    if t[q] == '"' {
      StringLocal(t, q + 1, hi, t', d);
    } else if t[q] == '{' {
      ObjectLocal(t, q, hi, t', d);
    } else if t[q] == '[' {
      ArrayLocal(t, q, hi, t', d);
    } else if t[q] == 't' {
      LiteralLocal(t, q, hi, t', d, "true");
    } else if t[q] == 'f' {
      LiteralLocal(t, q, hi, t', d, "false");
    } else if t[q] == 'n' {
      LiteralLocal(t, q, hi, t', d, "null");
    } else {
      NumberLocal(t, q, hi, t', d);
    }
  }

  lemma {:induction false} ArrayLocal(t: string, p: nat, hi: nat, t': string, d: int)
    requires Same(t, p, hi, t', d) && p < hi
    requires SkipArray(t, p).At? && SkipArray(t, p).pos <= hi
    ensures SkipArray(t', p + d) == At(SkipArray(t, p).pos + d)
    decreases hi - p, 1
  {
    hide SkipElements, SkipSpace;
    var q := SkipSpace(t, p + 1);
    SpaceLocal(t, p + 1, hi, t', d);
    assert t[q] == t'[q + d];
    if t[q] != ']' { ElementsLocal(t, q, hi, t', d); }
  }

  lemma {:induction false} ElementsLocal(t: string, p: nat, hi: nat, t': string, d: int)
    requires Same(t, p, hi, t', d)
    requires SkipElements(t, p).At? && SkipElements(t, p).pos <= hi
    ensures SkipElements(t', p + d) == At(SkipElements(t, p).pos + d)
    decreases hi - p, 3
  {
    hide SkipValue, SkipSpace;
    var e := SkipValue(t, p).pos;
    ValueLocal(t, p, hi, t', d);
    SpaceLocal(t, e, hi, t', d);
    var q := SkipSpace(t, e);
    assert t[q] == t'[q + d];
    if t[q] == ',' {
      SpaceLocal(t, q + 1, hi, t', d);
      ElementsLocal(t, SkipSpace(t, q + 1), hi, t', d);
    }
  }

  lemma KeyLocal(t: string, p: nat, hi: nat, t': string, d: int, noColon: JsonError)
    requires Same(t, p, hi, t', d)
    requires ReadKey(t, p, noColon).Got? && ReadKey(t, p, noColon).pos < hi
    ensures ReadKey(t', p + d, noColon) == Got(ReadKey(t, p, noColon).pos + d, ReadKey(t, p, noColon).text)
  {
    hide SkipSpace, ReadString, Same;
    var e := ReadString(t, p).pos;
    var q := SkipSpace(t, e);
    ReadStringLocal(t, p, hi, t', d);
    SameTail(t, p, e, hi, t', d);
    SameTail(t, p, q, hi, t', d);
    SameTail(t, p, q + 1, hi, t', d);
    SpaceLocal(t, e, hi, t', d);
    SpaceLocal(t, q + 1, hi, t', d);
  }

  lemma ReadStringLocal(t: string, p: nat, hi: nat, t': string, d: int)
    requires Same(t, p, hi, t', d) && ReadString(t, p).Got? && ReadString(t, p).pos <= hi
    ensures p < hi && ReadString(t', p + d) == Got(ReadString(t, p).pos + d, ReadString(t, p).text)
  {
    hide StringRest;
    assert t[p] == t'[p + d];
    StringLocal(t, p + 1, hi, t', d);
  }

  lemma {:induction false} ObjectLocal(t: string, p: nat, hi: nat, t': string, d: int)
    requires Same(t, p, hi, t', d) && p < hi
    requires SkipObject(t, p).At? && SkipObject(t, p).pos <= hi
    ensures SkipObject(t', p + d) == At(SkipObject(t, p).pos + d)
    decreases hi - p, 1
  {
    hide SkipMembers, SkipSpace;
    var q := SkipSpace(t, p + 1);
    SpaceLocal(t, p + 1, hi, t', d);
    assert t[q] == t'[q + d];
    if t[q] != '}' { MembersLocal(t, q, hi, t', d); }
  }

  lemma {:induction false} MembersLocal(t: string, p: nat, hi: nat, t': string, d: int)
    requires Same(t, p, hi, t', d)
    requires SkipMembers(t, p).At? && SkipMembers(t, p).pos <= hi
    ensures SkipMembers(t', p + d) == At(SkipMembers(t, p).pos + d)
    decreases hi - p, 3
  {
    hide SkipValue, SkipSpace, ReadKey, SkipMembers, Same, StartsRaw;
    SameTail(t, p, p, hi, t', d);
    var k, e, q := MembersBegin(t, p);
    MembersAfter(t, p, k, e, q);
    KeyLocal(t, p, hi, t', d, ExpectedColonInObject);
    SameTail(t, p, k, hi, t', d);
    ValueLocal(t, k, hi, t', d);
    SameTail(t, p, e, hi, t', d);
    SpaceLocal(t, e, hi, t', d);
    SameTail(t, p, q, hi, t', d);
    MembersAfter(t', p + d, k + d, e + d, q + d);
    if t[q] == ',' {
      SameTail(t, p, q + 1, hi, t', d);
      SpaceLocal(t, q + 1, hi, t', d);
      SameTail(t, p, SkipSpace(t, q + 1), hi, t', d);
      MembersLocal(t, SkipSpace(t, q + 1), hi, t', d);
    }
  }

  // ---------------------------------------------------------------------------------------------
  // The forwarded line
  // ---------------------------------------------------------------------------------------------

  function Head(kind: string, sender: string, target: string, callId: string): string {
    Field("type", kind) + "," + Field("from", sender) + "," + Field("to", target) + "," + Field("call_id", callId)
  }

  // The payload is not escaped: it is spliced in as it is.
  function SignalingEvent(kind: string, sender: string, target: string, callId: string,
                          payloadName: string, payload: string): string
  {
    "{" + Head(kind, sender, target, callId) + "," + Quote(payloadName) + ":" + payload + "}\n"
  }

  function SignalingFields(kind: string, sender: string, target: string, callId: string): JsonObject {
    map["type" := kind]["from" := sender]["to" := target]["call_id" := callId]
  }

  /** What reads the payload alone as one object, from its first byte to its last. */
  predicate IsObjectText(payload: string) {
    payload != "" && payload[0] == '{' && SkipValue(payload, 0) == At(|payload|)
  }

  // A field at p, and behind it, from e on, another one.
  ghost predicate FieldAt(t: string, p: nat, k: string, v: string, e: nat) {
    e == p + |Field(k, v)| + 1 && e < |t| && t[p..e - 1] == Field(k, v) && t[e - 1] == ',' && t[e] == '"'
  }

  lemma OneFieldRead(t: string, p: nat, k: string, v: string, e: nat, fields: JsonObject)
    requires FieldAt(t, p, k, v, e)
    ensures ReadMembers(t, p, fields) == ReadMembers(t, e, fields[k := v])
  {
    hide Field, ReadMembers, Matches;
    MatchesSlice(t, p, Field(k, v));
    FieldRead(t, p, k, v, fields);
  }

  lemma FourFieldsRead(t: string, p: nat, p1: nat, p2: nat, p3: nat, p4: nat, k1: string, v1: string,
                       k2: string, v2: string, k3: string, v3: string, k4: string, v4: string)
    requires FieldAt(t, p, k1, v1, p1) && FieldAt(t, p1, k2, v2, p2) && FieldAt(t, p2, k3, v3, p3) && FieldAt(t, p3, k4, v4, p4)
    ensures p <= |t| && p4 <= |t|
    ensures ReadMembers(t, p, map[]) == ReadMembers(t, p4, map[k1 := v1][k2 := v2][k3 := v3][k4 := v4])
  {
    hide Field, ReadMembers;
    OneFieldRead(t, p, k1, v1, p1, map[]);
    OneFieldRead(t, p1, k2, v2, p2, map[k1 := v1]);
    OneFieldRead(t, p2, k3, v3, p3, map[k1 := v1][k2 := v2]);
    OneFieldRead(t, p3, k4, v4, p4, map[k1 := v1][k2 := v2][k3 := v3]);
  }

  // The four string fields in front of the payload.
  lemma HeadRead(t: string, kind: string, sender: string, target: string, callId: string, rest: string)
    requires t == "{" + Head(kind, sender, target, callId) + "," + rest && rest != "" && rest[0] == '"'
    ensures var p := 1 + |Head(kind, sender, target, callId)| + 1;
            && p + |rest| == |t| && t[p..] == rest
            && Parse(t) == ReadMembers(t, p, SignalingFields(kind, sender, target, callId))
  {
    HeadParts(kind, sender, target, callId);
    hide *;
    HeadFields(t, "type", kind, "from", sender, "to", target, "call_id", callId, rest);
  }

  lemma HeadFields(t: string, k1: string, v1: string, k2: string, v2: string, k3: string, v3: string,
                   k4: string, v4: string, rest: string)
    requires t == "{" + (Field(k1, v1) + "," + Field(k2, v2) + "," + Field(k3, v3) + "," + Field(k4, v4)) + "," + rest
    requires rest != "" && rest[0] == '"'
    ensures var p := 1 + |Field(k1, v1)| + 1 + |Field(k2, v2)| + 1 + |Field(k3, v3)| + 1 + |Field(k4, v4)| + 1;
            && p + |rest| == |t| && t[p..] == rest
            && Parse(t) == ReadMembers(t, p, map[k1 := v1][k2 := v2][k3 := v3][k4 := v4])
  {
    hide *;
    FieldQuoted(k1, v1); FieldQuoted(k2, v2); FieldQuoted(k3, v3); FieldQuoted(k4, v4);
    HeadAt(t, Field(k1, v1), Field(k2, v2), Field(k3, v3), Field(k4, v4), rest);
    OpenBrace(t);
    var p1 := 1 + |Field(k1, v1)| + 1;
    var p2 := p1 + |Field(k2, v2)| + 1;
    var p3 := p2 + |Field(k3, v3)| + 1;
    var p4 := p3 + |Field(k4, v4)| + 1;
    FieldIsAt(t, 1, k1, v1, p1);
    FieldIsAt(t, p1, k2, v2, p2);
    FieldIsAt(t, p2, k3, v3, p3);
    FieldIsAt(t, p3, k4, v4, p4);
    FourFieldsRead(t, 1, p1, p2, p3, p4, k1, v1, k2, v2, k3, v3, k4, v4);
  }

  lemma FieldIsAt(t: string, p: nat, k: string, v: string, e: nat)
    requires e == p + |Field(k, v)| + 1 && e < |t| && t[p..e - 1] == Field(k, v) && t[e - 1] == ',' && t[e] == '"'
    ensures FieldAt(t, p, k, v, e)
  {
    hide Field;
  }

  lemma HeadParts(kind: string, sender: string, target: string, callId: string)
    ensures var a, b, c, e := Field("type", kind), Field("from", sender), Field("to", target), Field("call_id", callId);
            && Head(kind, sender, target, callId) == a + "," + b + "," + c + "," + e
            && |Head(kind, sender, target, callId)| == |a| + 1 + |b| + 1 + |c| + 1 + |e|
    ensures SignalingFields(kind, sender, target, callId) == map["type" := kind]["from" := sender]["to" := target]["call_id" := callId]
  {
    hide Field;
  }

  lemma HeadAt(t: string, a: string, b: string, c: string, e: string, rest: string)
    requires t == "{" + (a + "," + b + "," + c + "," + e) + "," + rest && rest != ""
    ensures var p1 := 1 + |a| + 1;
            var p2 := p1 + |b| + 1;
            var p3 := p2 + |c| + 1;
            var p4 := p3 + |e| + 1;
            && p4 + |rest| == |t| && t[p4..] == rest && t[p4] == rest[0]
            && t[0] == '{' && t[1..p1 - 1] == a && t[p1 - 1] == ',' && t[p1..p2 - 1] == b && t[p2 - 1] == ','
            && t[p2..p3 - 1] == c && t[p3 - 1] == ',' && t[p3..p4 - 1] == e && t[p4 - 1] == ','
            && (a != "" ==> t[1] == a[0]) && (b != "" ==> t[p1] == b[0])
            && (c != "" ==> t[p2] == c[0]) && (e != "" ==> t[p3] == e[0])
  {
  }

  lemma FieldQuoted(k: string, v: string)
    ensures Field(k, v) != "" && Field(k, v)[0] == '"'
  {
  }

  // t[p..] is the payload field and the brace that closes the event.
  ghost predicate LastField(t: string, p: nat, name: string, payload: string, q: nat) {
    && p <= |t| && q == p + |Quote(name)| + 1 && |t| == q + |payload| + 1
    && payload != "" && payload[0] == '{'
    && t[p..q] == Quote(name) + ":" && t[q..|t| - 1] == payload && t[|t| - 1] == '}'
  }

  lemma LastKeyRead(t: string, p: nat, name: string, payload: string, q: nat)
    requires LastField(t, p, name, payload, q)
    ensures t[q] == '{' && ReadKey(t, p, ExpectedColon) == Got(q, name)
    ensures ReadValue(t, q) == Slice(t, q, SkipValue(t, q))
    ensures Same(payload, 0, |payload|, t, q)
    ensures Same(t, q, q + |payload|, payload, -(q as int))
  {
    hide Quote, Matches, ReadKey, SkipValue;
    assert t[q] == t[q..|t| - 1][0];
    MatchesSlice(t, p, Quote(name) + ":");
    KeyRead(t, p, name, ExpectedColon);
    forall i | 0 <= i < |payload| ensures payload[i] == t[i + q] { assert t[q..|t| - 1][i] == t[i + q]; }
    forall i | q <= i < q + |payload| ensures t[i] == payload[i - q] { assert t[q..|t| - 1][i - q] == t[i]; }
  }

  /** Reading members never invents a long value: what is new in the map is shorter than the text left. */
  lemma {:induction false} NewValuesAreShort(t: string, p: nat, fields: JsonObject)
    requires p <= |t| && ReadMembers(t, p, fields).Object?
    ensures var read := ReadMembers(t, p, fields).fields;
            forall k | k in read :: (k in fields && read[k] == fields[k]) || |read[k]| < |t| - p
    decreases |t| - p
  {
    hide ReadKey, ReadValue, SkipSpace;
    var key := ReadKey(t, p, ExpectedColon);
    var value := ReadValue(t, key.pos);
    var q := SkipSpace(t, value.pos);
    if t[q] == ',' {
      NewValuesAreShort(t, SkipSpace(t, q + 1), fields[key.text := value.text]);
    }
  }

  lemma ObjectPayloadRead(t: string, p: nat, name: string, payload: string, q: nat, fields: JsonObject)
    requires LastField(t, p, name, payload, q) && IsObjectText(payload)
    ensures p <= |t| && ReadMembers(t, p, fields) == Object(fields[name := payload])
  {
    hide *;
    LastFieldUnfolds(t, p, name, payload, q);
    LastKeyRead(t, p, name, payload, q);
    ObjectTextUnfolds(payload);
    NotANumber(payload, 0);
    ValueLocal(payload, 0, |payload|, t, q);
    SliceRead(t, q, q + |payload|);
    LastMemberRead(t, p, name, payload, q, fields);
  }

  lemma LastFieldUnfolds(t: string, p: nat, name: string, payload: string, q: nat)
    requires LastField(t, p, name, payload, q)
    ensures p < q < |t| && q + |payload| + 1 == |t| && t[q..q + |payload|] == payload && t[q + |payload|] == '}'
    ensures payload != "" && payload[0] == '{'
  {
  }

  lemma ObjectTextUnfolds(payload: string)
    requires IsObjectText(payload)
    ensures payload != "" && payload[0] == '{' && SkipValue(payload, 0) == At(|payload|)
  {
    hide SkipValue;
  }

  lemma SliceRead(t: string, q: nat, e: nat)
    requires q <= e <= |t|
    ensures Slice(t, q, At(e)) == Got(e, t[q..e])
  {
  }

  lemma LastMemberRead(t: string, p: nat, name: string, payload: string, q: nat, fields: JsonObject)
    requires p < |t| && ReadKey(t, p, ExpectedColon) == Got(q, name) && ReadValue(t, q) == Got(|t| - 1, payload)
    requires t[|t| - 1] == '}'
    ensures ReadMembers(t, p, fields) == Object(fields[name := payload])
  {
    hide ReadKey, ReadValue;
    assert SkipSpace(t, |t| - 1) == |t| - 1;
  }

  // If the value under a key ends before the text does, what is stored under the key is short.
  lemma EarlyEnd(t: string, p: nat, key: Read, value: Read, fields: JsonObject)
    requires p < |t| && key == ReadKey(t, p, ExpectedColon) && key.Got? && value == ReadValue(t, key.pos) && value.Got?
    requires |value.text| < |t| - key.pos - 1 && ReadMembers(t, p, fields).Object?
    ensures key.text in ReadMembers(t, p, fields).fields
    ensures |ReadMembers(t, p, fields).fields[key.text]| < |t| - key.pos - 1
  {
    hide ReadKey, ReadValue, SkipSpace;
    var next := SkipSpace(t, value.pos);
    if t[next] == ',' {
      NewValuesAreShort(t, SkipSpace(t, next + 1), fields[key.text := value.text]);
      MembersKeepKeys(t, SkipSpace(t, next + 1), fields[key.text := value.text]);
    }
  }

  lemma {:induction false} MembersKeepKeys(t: string, p: nat, fields: JsonObject)
    requires p <= |t| && ReadMembers(t, p, fields).Object?
    ensures fields.Keys <= ReadMembers(t, p, fields).fields.Keys
    decreases |t| - p
  {
    hide ReadKey, ReadValue, SkipSpace;
    var key := ReadKey(t, p, ExpectedColon);
    var value := ReadValue(t, key.pos);
    var q := SkipSpace(t, value.pos);
    if t[q] == ',' { MembersKeepKeys(t, SkipSpace(t, q + 1), fields[key.text := value.text]); }
  }

  lemma LateEnd(t: string, p: nat, key: Read, fields: JsonObject)
    requires p < |t| && key == ReadKey(t, p, ExpectedColon) && key.Got?
    requires ReadMembers(t, p, fields).Object?
    ensures ReadValue(t, key.pos).Got? && ReadValue(t, key.pos).pos < |t|
  {
    hide ReadKey, ReadValue;
  }

  lemma OnlyObjectPayloadRead(t: string, p: nat, name: string, payload: string, q: nat, fields: JsonObject)
    requires LastField(t, p, name, payload, q)
    requires ReadMembers(t, p, fields) == Object(fields[name := payload])
    ensures IsObjectText(payload)
  {
    hide SkipValue, ReadKey, ReadValue, Quote, Same, ReadMembers, LastField;
    LastFieldUnfolds(t, p, name, payload, q);
    LastKeyRead(t, p, name, payload, q);
    LateEnd(t, p, Got(q, name), fields);
    var e := SkipValue(t, q).pos;
    if e < q + |payload| {
      EarlyEnd(t, p, Got(q, name), Got(e, t[q..e]), fields);
      assert false;
    } else {
      NotANumber(t, q);
      ValueLocal(t, q, q + |payload|, payload, -(q as int));
    }
  }

  lemma NotANumber(t: string, q: nat)
    requires q < |t| && t[q] == '{'
    ensures SkipSpace(t, q) == q && !IsNumberAt(t, q)
  {
  }

  /** Forwarding is transparent exactly for payloads that are one object: the receiver of an event the
      server built around an accepted payload reads the four fields and the very same payload text if
      and only if that text reads, alone, as one object. */
  lemma ForwardedIffObject(kind: string, sender: string, target: string, callId: string, name: string, payload: string)
    requires payload != "" && payload[0] == '{'
    ensures var line := SignalingEvent(kind, sender, target, callId, name, payload);
            && line != "" && line[|line| - 1] == '\n'
            && (Parse(line[..|line| - 1]) == Object(SignalingFields(kind, sender, target, callId)[name := payload])
                <==> IsObjectText(payload))
  {
    var fields := SignalingFields(kind, sender, target, callId);
    var line := SignalingEvent(kind, sender, target, callId, name, payload);
    var t, p, q := EventWithoutNewline(kind, sender, target, callId, name, payload);
    assert line[..|line| - 1] == t;
    hide *;
    if IsObjectText(payload) { ObjectPayloadRead(t, p, name, payload, q, fields); }
    if ReadMembers(t, p, fields) == Object(fields[name := payload]) {
      OnlyObjectPayloadRead(t, p, name, payload, q, fields);
    }
  }

  lemma EventWithoutNewline(kind: string, sender: string, target: string, callId: string, name: string, payload: string)
    returns (t: string, p: nat, q: nat)
    requires payload != "" && payload[0] == '{'
    ensures SignalingEvent(kind, sender, target, callId, name, payload) == t + "\n"
    ensures LastField(t, p, name, payload, q)
    ensures Parse(t) == ReadMembers(t, p, SignalingFields(kind, sender, target, callId))
  {
    hide *;
    t := EventBody(Head(kind, sender, target, callId), Quote(name), payload);
    p := 1 + |Head(kind, sender, target, callId)| + 1;
    q := p + |Quote(name)| + 1;
    BodyRead(kind, sender, target, callId, name, payload);
    EventIsBody(kind, sender, target, callId, name, payload);
    BodyEndsInField(Head(kind, sender, target, callId), name, payload, p, q);
  }

  // The event without its newline.
  function EventBody(head: string, quoted: string, payload: string): string {
    "{" + head + "," + (quoted + ":" + payload + "}")
  }

  lemma BodyRead(kind: string, sender: string, target: string, callId: string, name: string, payload: string)
    ensures var t, p := EventBody(Head(kind, sender, target, callId), Quote(name), payload),
                        1 + |Head(kind, sender, target, callId)| + 1;
            p <= |t| && Parse(t) == ReadMembers(t, p, SignalingFields(kind, sender, target, callId))
  {
    hide Head, Quote, Parse, ReadMembers, SignalingFields;
    var rest := Quote(name) + ":" + payload + "}";
    QuoteStart(name);
    HeadRead(EventBody(Head(kind, sender, target, callId), Quote(name), payload), kind, sender, target, callId, rest);
  }

  lemma EventCut(head: string, quoted: string, payload: string, p: nat, q: nat)
    requires p == 1 + |head| + 1 && q == p + |quoted| + 1
    ensures var t := EventBody(head, quoted, payload);
            && |t| == q + |payload| + 1 && t[p..q] == quoted + ":" && t[q..|t| - 1] == payload && t[|t| - 1] == '}'
            && "{" + head + "," + quoted + ":" + payload + "}\n" == t + "\n"
  {
    assert "}\n" == "}" + "\n";
  }

  lemma EventIsBody(kind: string, sender: string, target: string, callId: string, name: string, payload: string)
    ensures SignalingEvent(kind, sender, target, callId, name, payload) ==
            EventBody(Head(kind, sender, target, callId), Quote(name), payload) + "\n"
  {
    var head, quoted := Head(kind, sender, target, callId), Quote(name);
    EventCut(head, quoted, payload, 1 + |head| + 1, 1 + |head| + 1 + |quoted| + 1);
    hide Head, Quote, EventBody;
  }

  lemma BodyEndsInField(head: string, name: string, payload: string, p: nat, q: nat)
    requires p == 1 + |head| + 1 && q == p + |Quote(name)| + 1 && payload != "" && payload[0] == '{'
    ensures LastField(EventBody(head, Quote(name), payload), p, name, payload, q)
  {
    EventCut(head, Quote(name), payload, p, q);
    hide Quote, EventBody;
  }

  lemma QuoteStart(s: string)
    ensures |Quote(s)| >= 2 && Quote(s)[0] == '"'
  {
  }

  /** An object value sliced out of a request is such a text ... */
  lemma SlicedIsObjectText(request: string, p: nat)
    requires p < |request| && request[p] == '{' && ReadValue(request, p).Got?
    ensures IsObjectText(ReadValue(request, p).text)
  {
    var e := ReadValue(request, p).pos;
    var payload := request[p..e];
    NotANumber(request, p);
    hide *;
    SlicedText(request, p);
    ValueLocal(request, p, e, payload, -(p as int));
    WholeObject(payload);
  }

  /** ... and so is forwarded transparently. */
  lemma SlicedObjectIsForwarded(request: string, p: nat, kind: string, sender: string, target: string, callId: string, name: string)
    requires p < |request| && request[p] == '{' && ReadValue(request, p).Got?
    ensures var payload := ReadValue(request, p).text;
            && payload != "" && payload[0] == '{'
            && var line := SignalingEvent(kind, sender, target, callId, name, payload);
               && line != ""
               && Parse(line[..|line| - 1]) == Object(SignalingFields(kind, sender, target, callId)[name := payload])
  {
    hide *;
    SlicedIsObjectText(request, p);
    SlicedText(request, p);
    ForwardedIffObject(kind, sender, target, callId, name, ReadValue(request, p).text);
  }

  lemma SlicedText(t: string, p: nat)
    requires p < |t| && t[p] == '{' && ReadValue(t, p).Got?
    ensures var e := ReadValue(t, p).pos;
            var payload := t[p..e];
            && SkipValue(t, p) == At(e) && ReadValue(t, p).text == payload && payload != "" && payload[0] == '{'
            && Same(t, p, e, payload, -(p as int))
  {
    hide SkipValue;
  }

  lemma WholeObject(payload: string)
    requires payload != "" && payload[0] == '{' && SkipValue(payload, 0) == At(|payload|)
    ensures IsObjectText(payload)
  {
  }

  lemma HeadHasNoNewline(kind: string, sender: string, target: string, callId: string)
    ensures '\n' !in Head(kind, sender, target, callId)
  {
    FieldHasNoControls("type", kind);
    FieldHasNoControls("from", sender);
    FieldHasNoControls("to", target);
    FieldHasNoControls("call_id", callId);
    hide Field;
  }

  lemma QuoteHasNoNewline(s: string)
    ensures '\n' !in Quote(s)
  {
    EscapeHasNoControls(s);
    hide Escape;
  }

  /** A payload cut out of one line holds no newline, so the event is one line too. */
  lemma EventIsOneLine(kind: string, sender: string, target: string, callId: string, name: string, payload: string)
    requires '\n' !in payload
    ensures var line := SignalingEvent(kind, sender, target, callId, name, payload);
            |line| > 0 && forall i | 0 <= i < |line| :: line[i] == '\n' <==> i == |line| - 1
  {
    var line := SignalingEvent(kind, sender, target, callId, name, payload);
    var body := "{" + Head(kind, sender, target, callId) + "," + Quote(name) + ":" + payload + "}";
    HeadHasNoNewline(kind, sender, target, callId);
    QuoteHasNoNewline(name);
    hide Head, Quote;
    assert line == body + "\n" && '\n' !in body;
    hide SignalingEvent;
    forall i | 0 <= i < |line| - 1 ensures line[i] != '\n' { assert line[i] == body[i] && body[i] in body; }
  }

  /** The guard of handleCallRequest, a first byte '{', is not enough: a string field holding "{" passes
      it, and the event built around it is not JSON. */
  lemma BraceIsNotEnough(kind: string, sender: string, target: string, callId: string, name: string)
    ensures !IsObjectText("{")
    ensures var line := SignalingEvent(kind, sender, target, callId, name, "{");
            && line != ""
            && Parse(line[..|line| - 1]) != Object(SignalingFields(kind, sender, target, callId)[name := "{"])
  {
    hide *;
    LoneBrace();
    ForwardedIffObject(kind, sender, target, callId, name, "{");
  }

  lemma LoneBrace()
    ensures !IsObjectText("{")
  {
    assert SkipSpace("{", 0) == 0 && SkipSpace("{", 1) == 1;
    assert SkipObject("{", 0) == SkipMembers("{", 1) == Bad(UnterminatedObject);
  }
}
