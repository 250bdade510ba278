/** common/Json.cc as it is written: loops that move an in-out cursor and push characters.  Each
    method ends where the functions of `Json` say. */
module JsonCursor {
  import opened Names
  import opened Json

  method SkipWhitespace(text: string, start: nat) returns (pos: nat)
    requires start <= |text|
    ensures pos == SkipSpace(text, start)
  {
    pos := start;
    while pos < |text| && IsSpace(text[pos])
      invariant start <= pos <= |text| && SkipSpace(text, pos) == SkipSpace(text, start)
    {
      pos := pos + 1;
    }
  }

  method ParseUnicodeEscape(text: string, pos: nat) returns (r: Read)
    requires pos <= |text|
    ensures r == UnicodeEscape(text, pos)
  {
    if pos + 4 > |text| { return Failed(IncompleteUnicode); }
    var code := 0;
    for i := 0 to 4
      invariant AllHex(text, pos, i) && code == HexNumber(text, pos, i)
    {
      if !IsHex(text[pos + i]) { return Failed(InvalidUnicode); }
      code := code * 16 + HexValue(text[pos + i]);
    }
    if code > 0x7f { return Failed(UnicodeAboveAscii); }
    return Got(pos + 4, [code as char]);
  }

  lemma PrependTwice(output: string, c: string, r: Read)
    ensures Prepend(output, Prepend(c, r)) == Prepend(output + c, r)
  {
    if r.Got? { assert output + (c + r.text) == output + c + r.text; }
  }

  method ParseString(text: string, start: nat) returns (r: Read)
    requires start <= |text|
    ensures r == ReadString(text, start)
  {
    if start == |text| || text[start] != '"' { return Failed(ExpectedString); }
    var pos, output := start + 1, "";
    while pos < |text|
      invariant start < pos <= |text|
      invariant ReadString(text, start) == Prepend(output, StringRest(text, pos))
    {
      var ch := text[pos];
      ghost var here := StringRest(text, pos);
      if ch == '"' {
        return Got(pos + 1, output);
      }
      if ch == '\\' {
        if pos + 1 >= |text| { return Failed(IncompleteEscape); }
        var escaped := text[pos + 1];
        if IsSimpleEscape(escaped) {
          PrependTwice(output, [Unescaped(escaped)], StringRest(text, pos + 2));
          output, pos := output + [Unescaped(escaped)], pos + 2;
        } else if escaped == 'u' {
          var u := ParseUnicodeEscape(text, pos + 2);
          if u.Failed? { return u; }
          PrependTwice(output, u.text, StringRest(text, u.pos));
          output, pos := output + u.text, u.pos;
        } else {
          return Failed(InvalidEscape);
        }
      } else {
        if ch < ' ' { return Failed(ControlCharacter); }
        PrependTwice(output, [ch], StringRest(text, pos + 1));
        output, pos := output + [ch], pos + 1;
      }
    }
    return Failed(UnterminatedString);
  }

  method ConsumeDigits(text: string, start: nat) returns (pos: nat)
    requires start <= |text|
    ensures pos == SkipDigits(text, start)
  {
    pos := start;
    while pos < |text| && IsDigit(text[pos])
      invariant start <= pos <= |text| && SkipDigits(text, pos) == SkipDigits(text, start)
    {
      pos := pos + 1;
    }
  }

  method ParseNumberAsString(text: string, start: nat) returns (r: Read)
    requires start <= |text|
    ensures r == Slice(text, start, SkipNumber(text, start))
  {
    hide SkipDigits, SkipNumber, SkipFraction, SkipExponent;
    var pos := start;
    if pos < |text| && text[pos] == '-' { pos := pos + 1; }
    var digitsStart := pos;
    pos := ConsumeDigits(text, pos);
    NumberParts(text, start, digitsStart, pos);
    if pos == digitsStart { return Failed(ExpectedStringOrNumber); }
    FractionParts(text, pos);
    if pos < |text| && text[pos] == '.' {
      var fractionStart := pos + 1;
      pos := ConsumeDigits(text, fractionStart);
      if pos == fractionStart { return Failed(InvalidNumber); }
    }
    ghost var fractionEnd := pos;
    if pos < |text| && (text[pos] == 'e' || text[pos] == 'E') {
      pos := pos + 1;
      if pos < |text| && (text[pos] == '+' || text[pos] == '-') { pos := pos + 1; }
      var exponentStart := pos;
      pos := ConsumeDigits(text, pos);
      ExponentParts(text, fractionEnd, exponentStart, pos);
      if pos == exponentStart { return Failed(InvalidNumber); }
    } else {
      NoExponent(text, pos);
    }
    return Got(pos, text[start..pos]);
  }

  lemma ExponentParts(t: string, p: nat, start: nat, q: nat)
    requires p < |t| && (t[p] == 'e' || t[p] == 'E') && start == SkipOne(t, p + 1, '+', '-') && q == SkipDigits(t, start)
    ensures SkipExponent(t, p) == if q == start then Bad(InvalidNumber) else At(q)
  {
    hide SkipDigits;
  }

  lemma NoExponent(t: string, p: nat)
    requires p <= |t| && (p < |t| ==> t[p] != 'e' && t[p] != 'E')
    ensures SkipExponent(t, p) == At(p)
  {
  }

  method ConsumeValue(text: string, start: nat) returns (r: Stop)
    requires start <= |text|
    ensures r == SkipValue(text, start)
    decreases |text| - start, 2
  {
    var pos := SkipWhitespace(text, start);
    if pos >= |text| { return Bad(ExpectedValue); }
    if text[pos] == '"' {
      var ignored := ParseString(text, pos);
      return ignored.Stop();
    }
    if text[pos] == '{' { r := ConsumeObject(text, pos); return; }
    if text[pos] == '[' { r := ConsumeArray(text, pos); return; }
    if text[pos] == 't' { return SkipLiteral(text, pos, "true"); }
    if text[pos] == 'f' { return SkipLiteral(text, pos, "false"); }
    if text[pos] == 'n' { return SkipLiteral(text, pos, "null"); }
    var ignored := ParseNumberAsString(text, pos);
    return ignored.Stop();
  }

  method ConsumeArray(text: string, start: nat) returns (r: Stop)
    requires start < |text|
    ensures r == SkipArray(text, start)
    decreases |text| - start, 1
  {
    hide SkipValue, SkipSpace;
    var pos := SkipWhitespace(text, start + 1);
    if pos < |text| && text[pos] == ']' { return At(pos + 1); }
    while pos < |text|
      invariant start < pos <= |text| && SkipElements(text, pos) == SkipArray(text, start)
      decreases |text| - pos
    {
      r := ConsumeValue(text, pos);
      if r.Bad? { return; }
      pos := SkipWhitespace(text, r.pos);
      if pos >= |text| { return Bad(UnterminatedArray); }
      if text[pos] == ']' { return At(pos + 1); }
      if text[pos] != ',' { return Bad(ExpectedCommaInArray); }
      pos := SkipWhitespace(text, pos + 1);
    }
    return Bad(UnterminatedArray);
  }

  method ConsumeObject(text: string, start: nat) returns (r: Stop)
    requires start < |text|
    ensures r == SkipObject(text, start)
    decreases |text| - start, 1
  {
    hide SkipValue, SkipSpace, ReadKey;
    var pos := SkipWhitespace(text, start + 1);
    if pos < |text| && text[pos] == '}' { return At(pos + 1); }
    while pos < |text|
      invariant start < pos <= |text| && SkipMembers(text, pos) == SkipObject(text, start)
      decreases |text| - pos
    {
      var key := ParseKey(text, pos, ExpectedColonInObject);
      if key.Failed? { return Bad(key.error); }
      r := ConsumeValue(text, key.pos);
      if r.Bad? { return; }
      pos := SkipWhitespace(text, r.pos);
      if pos >= |text| { return Bad(UnterminatedObject); }
      if text[pos] == '}' { return At(pos + 1); }
      if text[pos] != ',' { return Bad(ExpectedCommaInObject); }
      pos := SkipWhitespace(text, pos + 1);
    }
    return Bad(UnterminatedObject);
  }

  method ParseKey(text: string, start: nat, noColon: JsonError) returns (r: Read)
    requires start <= |text|
    ensures r == ReadKey(text, start, noColon)
  {
    var key := ParseString(text, start);
    if key.Failed? { return key; }
    var pos := SkipWhitespace(text, key.pos);
    if pos >= |text| || text[pos] != ':' { return Failed(noColon); }
    pos := SkipWhitespace(text, pos + 1);
    return Got(pos, key.text);
  }

  method ParseValueAsString(text: string, start: nat) returns (r: Read)
    requires start <= |text|
    ensures r == ReadValue(text, start)
  {
    if start < |text| && text[start] == '"' { r := ParseString(text, start); return; }
    if start < |text| && StartsRaw(text[start]) {
      var end := ConsumeValue(text, start);
      if end.Bad? { return Failed(end.error); }
      return Got(end.pos, text[start..end.pos]);
    }
    r := ParseNumberAsString(text, start);
  }

  method ParseJsonObject(text: string) returns (r: ObjectRead)
    ensures r == Parse(text)
  {
    hide ReadKey, ReadValue, SkipSpace;
    var fields: JsonObject := map[];
    var pos := SkipWhitespace(text, 0);
    if pos >= |text| || text[pos] != '{' { return Malformed(ExpectedObject); }
    pos := SkipWhitespace(text, pos + 1);
    if pos < |text| && text[pos] == '}' {
      pos := SkipWhitespace(text, pos + 1);
      if pos != |text| { return Malformed(TrailingContent); }
      return Object(fields);
    }
    while pos < |text|
      invariant pos <= |text| && ReadMembers(text, pos, fields) == Parse(text)
      decreases |text| - pos
    {
      var key := ParseKey(text, pos, ExpectedColon);
      if key.Failed? { return Malformed(key.error); }
      var value := ParseValueAsString(text, key.pos);
      if value.Failed? { return Malformed(value.error); }
      fields := fields[key.text := value.text];
      pos := SkipWhitespace(text, value.pos);
      if pos >= |text| { return Malformed(UnterminatedObject); }
      if text[pos] == '}' {
        pos := SkipWhitespace(text, pos + 1);
        if pos != |text| { return Malformed(TrailingContent); }
        return Object(fields);
      }
      if text[pos] != ',' { return Malformed(ExpectedComma); }
      pos := SkipWhitespace(text, pos + 1);
    }
    return Malformed(UnterminatedObject);
  }

  method EscapeJsonString(value: string) returns (output: string)
    ensures output == Escape(value)
  {
    output := "";
    for i := 0 to |value|
      invariant output + Escape(value[i..]) == Escape(value)
    {
      assert value[i..][1..] == value[i + 1..];
      assert output + Escape(value[i..]) == output + EscapeChar(value[i]) + Escape(value[i + 1..]);
      output := output + EscapeChar(value[i]);
    }
  }

  method AppendField(stream: string, key: string, value: string) returns (output: string)
    ensures output == stream + Field(key, value)
  {
    var k := EscapeJsonString(key);
    var v := EscapeJsonString(value);
    assert "\"" + k + "\":\"" + v + "\"" == Field(key, value);
    output := stream + ("\"" + k + "\":\"" + v + "\"");
  }

  lemma AllListed(keys: set<string>, fields: JsonObject)
    requires keys <= fields.Keys
    ensures forall k | k in Ascending(keys) :: k in fields
  {
    AscendingIsSorted(keys);
  }

  lemma FieldsInOrder(stream: string, fields: JsonObject, keys: seq<string>)
    requires keys != [] && forall k | k in keys :: k in fields
    ensures stream + Fields(fields, keys) == stream + Field(keys[0], fields[keys[0]]) + MoreFields(fields, keys[1..])
    ensures stream + MoreFields(fields, keys) == stream + "," + Field(keys[0], fields[keys[0]]) + MoreFields(fields, keys[1..])
  {
    hide Field;
    var field, more := Field(keys[0], fields[keys[0]]), MoreFields(fields, keys[1..]);
    assert Fields(fields, keys) == field + more && MoreFields(fields, keys) == "," + field + more;
    hide MoreFields;
    assert stream + (field + more) == stream + field + more;
    assert stream + ("," + field + more) == stream + "," + field + more;
  }

  method SerializeJsonObject(fields: JsonObject) returns (output: string)
    ensures output == Serialize(fields)
  {
    output := "{";
    var left, first := fields.Keys, true;
    AllListed(left, fields);
    ghost var all := "{" + Fields(fields, Ascending(fields.Keys));
    while left != {}
      invariant left <= fields.Keys && forall k | k in Ascending(left) :: k in fields
      invariant first ==> left == fields.Keys && output == "{"
      invariant !first ==> output + MoreFields(fields, Ascending(left)) == all
    {
      var key := Least(left);
      ghost var keys := Ascending(left);
      FieldsInOrder(output, fields, keys);
      if !first { output := output + ","; }
      first := false;
      output := AppendField(output, key, fields[key]);
      left := left - {key};
      assert keys[0] == key && keys[1..] == Ascending(left);
      AllListed(left, fields);
    }
    output := output + "}";
  }

  method MakeLine(fields: JsonObject) returns (line: string)
    ensures line == MakeJsonLine(fields)
  {
    var output := SerializeJsonObject(fields);
    line := output + "\n";
  }
}
