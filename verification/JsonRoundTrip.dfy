/** What the writer writes, the reader reads back: common/Json.cc lines 405-561. */
module JsonRoundTrip {
  import opened Names
  import opened Json

  // `w` is what the text holds from position p on.
  ghost predicate Matches(t: string, p: nat, w: string)
    decreases |w|
  {
    w == "" || (p < |t| && t[p] == w[0] && Matches(t, p + 1, w[1..]))
  }

  lemma {:induction false} MatchesSlice(t: string, p: nat, w: string)
    requires p <= |t|
    ensures Matches(t, p, w) <==> p + |w| <= |t| && t[p..p + |w|] == w
    decreases |w|
  {
    if w != "" && p < |t| {
      MatchesSlice(t, p + 1, w[1..]);
      if p + |w| <= |t| {
        assert t[p..p + |w|] == [t[p]] + t[p + 1..p + 1 + |w[1..]|];
        assert w == [w[0]] + w[1..];
      }
    }
  }

  lemma {:induction false} MatchesSplit(t: string, p: nat, a: string, b: string)
    requires Matches(t, p, a + b) && p <= |t|
    ensures Matches(t, p, a) && Matches(t, p + |a|, b) && p + |a| + |b| <= |t|
    decreases |a|
  {
    if a == "" {
      assert a + b == b;
      MatchesSlice(t, p, b);
    } else {
      assert (a + b)[1..] == a[1..] + b;
      MatchesSplit(t, p + 1, a[1..], b);
    }
  }

  lemma {:induction false} MatchesAt(t: string, p: nat, w: string, i: nat)
    requires Matches(t, p, w) && i < |w|
    ensures p + i < |t| && t[p + i] == w[i]
    decreases i
  {
    if i > 0 { MatchesAt(t, p + 1, w[1..], i - 1); }
  }

  lemma HexDigitsRead(v: int)
    requires 0 <= v < 16
    ensures IsHex(HexDigit(v)) && HexValue(HexDigit(v)) == v
  {
  }

  // A control character without a short escape is written as \u00hh.
  lemma ControlRead(t: string, p: nat, c: char)
    requires p <= |t| && c < ' ' && !HasShortEscape(c) && Matches(t, p, EscapeChar(c))
    ensures p + 6 <= |t| && t[p] == '\\' && t[p + 1] == 'u' && UnicodeEscape(t, p + 2) == Got(p + 6, [c])
  {
    var hi, lo := c as int / 16, c as int % 16;
    var w := EscapeChar(c);
    HexDigitsRead(hi);
    HexDigitsRead(lo);
    MatchesAt(t, p, w, 0); MatchesAt(t, p, w, 1); MatchesAt(t, p, w, 2);
    MatchesAt(t, p, w, 3); MatchesAt(t, p, w, 4); MatchesAt(t, p, w, 5);
    assert HexNumber(t, p + 2, 1) == 0;
    assert HexNumber(t, p + 2, 2) == 0;
    assert HexNumber(t, p + 2, 3) == hi;
    assert HexNumber(t, p + 2, 4) == hi * 16 + lo == c as int;
  }

  lemma CharRead(t: string, p: nat, c: char)
    requires p + |EscapeChar(c)| <= |t| && Matches(t, p, EscapeChar(c))
    ensures StringRest(t, p) == Prepend([c], StringRest(t, p + |EscapeChar(c)|))
  {
    var w := EscapeChar(c);
    MatchesAt(t, p, w, 0);
    if |w| == 2 {
      MatchesAt(t, p, w, 1);
    } else if |w| > 2 {
      ControlRead(t, p, c);
    }
  }

  lemma EscapeSplit(s: string)
    requires s != ""
    ensures Escape(s) + "\"" == EscapeChar(s[0]) + (Escape(s[1..]) + "\"")
    ensures |Escape(s)| == |EscapeChar(s[0])| + |Escape(s[1..])|
  {
    hide EscapeChar;
  }

  lemma {:induction false} EscapedRead(t: string, p: nat, s: string)
    requires p <= |t| && Matches(t, p, Escape(s) + "\"")
    ensures StringRest(t, p) == Got(p + |Escape(s)| + 1, s)
    decreases |s|
  {
    hide *;
    if s == "" {
      EscapeNothing();
      MatchesAt(t, p, "\"", 0);
      StringEnds(t, p);
    } else {
      EscapeSplit(s);
      MatchesSplit(t, p, EscapeChar(s[0]), Escape(s[1..]) + "\"");
      CharRead(t, p, s[0]);
      EscapedRead(t, p + |EscapeChar(s[0])|, s[1..]);
      Prepended(s[0], s[1..], p + |Escape(s)| + 1);
      assert [s[0]] + s[1..] == s;
    }
  }

  lemma EscapeNothing()
    ensures Escape("") == "" && "" + "\"" == "\""
  {
  }

  lemma StringEnds(t: string, p: nat)
    requires p < |t| && t[p] == '"'
    ensures StringRest(t, p) == Got(p + 1, "")
  {
  }

  lemma Prepended(c: char, text: string, e: nat)
    ensures Prepend([c], Got(e, text)) == Got(e, [c] + text)
  {
  }

  /** Whatever surrounds it, a quoted string is read back as the string that was quoted. */
  lemma QuotedRead(t: string, p: nat, s: string)
    requires p <= |t| && Matches(t, p, Quote(s))
    ensures ReadString(t, p) == Got(p + |Quote(s)|, s)
  {
    assert Quote(s) == "\"" + (Escape(s) + "\"");
    MatchesSplit(t, p, "\"", Escape(s) + "\"");
    MatchesAt(t, p, "\"", 0);
    EscapedRead(t, p + 1, s);
  }

  lemma KeyRead(t: string, p: nat, k: string, noColon: JsonError)
    requires p <= |t| && Matches(t, p, Quote(k) + ":")
    requires p + |Quote(k)| + 1 < |t| && !IsSpace(t[p + |Quote(k)| + 1])
    ensures ReadKey(t, p, noColon) == Got(p + |Quote(k)| + 1, k)
  {
    MatchesSplit(t, p, Quote(k), ":");
    MatchesAt(t, p + |Quote(k)|, ":", 0);
    QuotedRead(t, p, k);
  }

  /** A field read at the cursor lands in the map; the cursor moves to the next field or past the brace. */
  lemma FieldRead(t: string, p: nat, k: string, v: string, fields: JsonObject)
    requires Matches(t, p, Field(k, v)) && p + |Field(k, v)| < |t|
    ensures var e := p + |Field(k, v)|;
            && (t[e] == '}' ==> ReadMembers(t, p, fields) == Ended(t, e + 1, fields[k := v]))
            && (t[e] == ',' && e + 1 < |t| && !IsSpace(t[e + 1]) ==>
                  ReadMembers(t, p, fields) == ReadMembers(t, e + 1, fields[k := v]))
  {
    var e := p + |Field(k, v)|;
    hide Matches, Escape, IsSimpleEscape, SkipValue, SkipNumber, StringRest;
    assert Field(k, v) == (Quote(k) + ":") + Quote(v);
    MatchesSplit(t, p, Quote(k) + ":", Quote(v));
    var at := p + |Quote(k)| + 1;
    MatchesAt(t, at, Quote(v), 0);
    KeyRead(t, p, k, ExpectedColon);
    QuotedRead(t, at, v);
    assert ReadValue(t, at) == Got(e, v);
  }

  ghost function AddAll(fields: JsonObject, from: JsonObject, keys: seq<string>): JsonObject
    requires forall k | k in keys :: k in from
    decreases |keys|
  {
    if keys == [] then fields else AddAll(fields[keys[0] := from[keys[0]]], from, keys[1..])
  }

  lemma FirstOrRest(keys: seq<string>)
    requires keys != []
    ensures forall k :: k in keys <==> k == keys[0] || k in keys[1..]
  {
    assert keys == [keys[0]] + keys[1..];
  }

  lemma {:induction false} AddAllIsUnion(fields: JsonObject, from: JsonObject, keys: seq<string>)
    requires forall k | k in keys :: k in from
    ensures AddAll(fields, from, keys) == fields + map k | k in keys :: from[k]
    decreases |keys|
  {
    if keys != [] {
      AddAllIsUnion(fields[keys[0] := from[keys[0]]], from, keys[1..]);
      FirstOrRest(keys);
    }
  }

  // The first of several fields, up to the field after it or the closing brace.
  lemma FirstFieldRead(t: string, p: nat, fields: JsonObject, from: JsonObject, keys: seq<string>) returns (e: nat)
    requires keys != [] && forall k | k in keys :: k in from
    requires p <= |t| && Matches(t, p, Fields(from, keys) + "}")
    ensures e < |t|
    ensures var fields' := fields[keys[0] := from[keys[0]]];
            if |keys| == 1 then
              e == p + |Fields(from, keys)| && ReadMembers(t, p, fields) == Ended(t, e + 1, fields')
            else
              && e + 1 + |Fields(from, keys[1..])| == p + |Fields(from, keys)|
              && Matches(t, e + 1, Fields(from, keys[1..]) + "}")
              && ReadMembers(t, p, fields) == ReadMembers(t, e + 1, fields')
  {
    hide Fields, Matches, Field, ReadMembers, Ended;
    e := p + |Field(keys[0], from[keys[0]])|;
    FieldsSplit(t, p, from, keys);
    FieldRead(t, p, keys[0], from[keys[0]], fields);
  }

  lemma {:induction false} FieldsRead(t: string, p: nat, fields: JsonObject, from: JsonObject, keys: seq<string>, end: nat)
    requires keys != [] && forall k | k in keys :: k in from
    requires p <= |t| && Matches(t, p, Fields(from, keys) + "}") && end == p + |Fields(from, keys)| + 1
    ensures end <= |t| && ReadMembers(t, p, fields) == Ended(t, end, AddAll(fields, from, keys))
    decreases |keys|
  {
    hide ReadMembers, Matches, Fields;
    var e := FirstFieldRead(t, p, fields, from, keys);
    var fields', rest := fields[keys[0] := from[keys[0]]], keys[1..];
    assert AddAll(fields, from, keys) == AddAll(fields', from, rest);
    if rest != [] {
      FieldsRead(t, e + 1, fields', from, rest, end);
    }
  }

  lemma FieldsSplit(t: string, p: nat, from: JsonObject, keys: seq<string>)
    requires keys != [] && forall k | k in keys :: k in from
    requires p <= |t| && Matches(t, p, Fields(from, keys) + "}")
    ensures var field := Field(keys[0], from[keys[0]]);
            var e := p + |field|;
            && Matches(t, p, field) && e < |t|
            && if |keys| == 1 then t[e] == '}' && Fields(from, keys) == field
               else && t[e] == ',' && Matches(t, e + 1, Fields(from, keys[1..]) + "}")
                    && |Fields(from, keys)| == |field| + 1 + |Fields(from, keys[1..])|
                    && e + 1 < |t| && t[e + 1] == '"'
  {
    hide *;
    var field, rest := Field(keys[0], from[keys[0]]), keys[1..];
    FieldsWritten(from, keys);
    if rest == [] {
      MatchesSplit(t, p, field, "}");
      MatchesAt(t, p + |field|, "}", 0);
    } else {
      MatchesSplit(t, p, field, "," + (Fields(from, rest) + "}"));
      MatchesSplit(t, p + |field|, ",", Fields(from, rest) + "}");
      MatchesAt(t, p + |field|, ",", 0);
      FieldsStart(from, rest);
      MatchesAt(t, p + |field| + 1, Fields(from, rest) + "}", 0);
    }
  }

  lemma FieldsWritten(from: JsonObject, keys: seq<string>)
    requires keys != [] && forall k | k in keys :: k in from
    ensures var field := Field(keys[0], from[keys[0]]);
            if |keys| == 1 then Fields(from, keys) == field
            else && Fields(from, keys) + "}" == field + ("," + (Fields(from, keys[1..]) + "}"))
                 && |Fields(from, keys)| == |field| + 1 + |Fields(from, keys[1..])|
  {
    hide Field;
  }

  lemma OpenBrace(t: string)
    requires |t| >= 2 && t[0] == '{' && t[1] == '"'
    ensures Parse(t) == ReadMembers(t, 1, map[])
  {
    hide ReadMembers;
    assert SkipSpace(t, 0) == 0 && SkipSpace(t, 1) == 1;
  }

  lemma EmptyObjectRead()
    ensures Serialize(map[]) == "{}" && Parse("{}") == Object(map[])
  {
    hide ReadMembers;
    assert SkipSpace("{}", 0) == 0 && SkipSpace("{}", 1) == 1 && SkipSpace("{}", 2) == 2;
  }

  lemma SerializedBody(fields: JsonObject, keys: seq<string>)
    requires keys == Ascending(fields.Keys) && keys != [] && forall k | k in keys :: k in fields
    ensures var t := Serialize(fields);
            && Matches(t, 1, Fields(fields, keys) + "}") && |t| == 1 + |Fields(fields, keys)| + 1
            && t[0] == '{' && t[1] == '"'
  {
    var t, body := Serialize(fields), Fields(fields, keys) + "}";
    hide Matches, Fields;
    assert t == "{" + body;
    assert t[1..1 + |body|] == body;
    MatchesSlice(t, 1, body);
    assert Fields(fields, keys)[0] == '"' by { FieldsStart(fields, keys); }
    assert t[1] == body[0];
  }

  lemma FieldsStart(fields: JsonObject, keys: seq<string>)
    requires keys != [] && forall k | k in keys :: k in fields
    ensures Fields(fields, keys) != "" && Fields(fields, keys)[0] == '"'
  {
  }

  /** Every map of byte strings survives writing and reading. */
  lemma SerializeThenParse(fields: JsonObject)
    ensures Parse(Serialize(fields)) == Object(fields)
  {
    hide *;
    var t, keys := Serialize(fields), Ascending(fields.Keys);
    AscendingIsSorted(fields.Keys);
    EmptyObjectRead();
    if keys == [] {
      assert fields == map[];
    } else {
      SerializedBody(fields, keys);
      OpenBrace(t);
      FieldsRead(t, 1, map[], fields, keys, |t|);
      AddAllIsUnion(map[], fields, keys);
      assert AddAll(map[], fields, keys) == fields;
      NothingAfter(t, fields);
    }
  }

  lemma NothingAfter(t: string, fields: JsonObject)
    ensures Ended(t, |t|, fields) == Object(fields)
  {
  }

  lemma {:induction false} EscapeHasNoControls(s: string)
    ensures forall c | c in Escape(s) :: c >= ' '
  {
    if s != "" {
      EscapeHasNoControls(s[1..]);
      assert forall c | c in EscapeChar(s[0]) :: c >= ' ';
    }
  }

  lemma {:induction false} MoreFieldsHaveNoControls(fields: JsonObject, keys: seq<string>)
    requires forall k | k in keys :: k in fields
    ensures forall c | c in MoreFields(fields, keys) :: c >= ' '
  {
    if keys != [] {
      MoreFieldsHaveNoControls(fields, keys[1..]);
      FieldHasNoControls(keys[0], fields[keys[0]]);
    }
  }

  lemma FieldHasNoControls(k: string, v: string)
    ensures forall c | c in Field(k, v) :: c >= ' '
  {
    EscapeHasNoControls(k);
    EscapeHasNoControls(v);
  }

  lemma SerializeHasNoControls(fields: JsonObject)
    ensures forall c | c in Serialize(fields) :: c >= ' '
  {
    var keys := Ascending(fields.Keys);
    AscendingIsSorted(fields.Keys);
    if keys != [] {
      FieldHasNoControls(keys[0], fields[keys[0]]);
      MoreFieldsHaveNoControls(fields, keys[1..]);
    }
  }

  /** A line holds exactly one newline, its last byte, so the receiver cuts it where it was joined. */
  lemma LineHasOneNewline(fields: JsonObject)
    ensures var line := MakeJsonLine(fields);
            && |line| >= 3
            && forall i | 0 <= i < |line| :: line[i] == '\n' <==> i == |line| - 1
  {
    SerializeHasNoControls(fields);
    var line := MakeJsonLine(fields);
    forall i | 0 <= i < |line| - 1 ensures line[i] != '\n' {
      assert line[i] == Serialize(fields)[i] && Serialize(fields)[i] in Serialize(fields);
    }
  }
}
