/** The JSON reader and writer of common/Json.cc.  The source moves a cursor through the text; the
    functions say where the cursor ends up and what was read, the methods move it as the source does.
    A `char` is one byte of a std::string. */
module Json {
  import opened Names

  datatype JsonError =
    | ExpectedString | IncompleteEscape | InvalidEscape | ControlCharacter | UnterminatedString
    | IncompleteUnicode | InvalidUnicode | UnicodeAboveAscii
    | ExpectedStringOrNumber | InvalidNumber | InvalidLiteral | ExpectedValue
    | UnterminatedArray | ExpectedCommaInArray
    | UnterminatedObject | ExpectedColonInObject | ExpectedCommaInObject
    | ExpectedColon | ExpectedComma | ExpectedObject | TrailingContent

  // Where the cursor stops.
  datatype Stop = At(pos: nat) | Bad(error: JsonError)

  // Where the cursor stops, and the text that was read.
  datatype Read = Got(pos: nat, text: string) | Failed(error: JsonError)
  {
    function Stop(): Stop { if Got? then At(pos) else Bad(error) }
  }

  type JsonObject = map<string, string>

  datatype ObjectRead = Object(fields: JsonObject) | Malformed(error: JsonError)

  // ---------------------------------------------------------------------------------------------
  // Characters
  // ---------------------------------------------------------------------------------------------

  const BS: char := '\U{0008}'
  const FF: char := '\U{000C}'

  // isspace of the C locale.
  predicate IsSpace(c: char) { c == ' ' || 9 <= c as int <= 13 }

  predicate IsDigit(c: char) { '0' <= c <= '9' }

  predicate IsHex(c: char) { IsDigit(c) || 'a' <= c <= 'f' || 'A' <= c <= 'F' }

  function HexValue(c: char): (v: int)
    requires IsHex(c)
    ensures 0 <= v < 16
  {
    if IsDigit(c) then c as int - '0' as int
    else if 'a' <= c <= 'f' then c as int - 'a' as int + 10
    else c as int - 'A' as int + 10
  }

  predicate AllHex(t: string, p: nat, n: nat)
    requires p + n <= |t|
  {
    forall i | p <= i < p + n :: IsHex(t[i])
  }

  // The number the n hexadecimal digits at p spell.
  function HexNumber(t: string, p: nat, n: nat): nat
    requires p + n <= |t| && AllHex(t, p, n)
  {
    if n == 0 then 0 else HexNumber(t, p, n - 1) * 16 + HexValue(t[p + n - 1])
  }

  function HexDigit(v: int): char
    requires 0 <= v < 16
  {
    if v < 10 then (v + '0' as int) as char else (v - 10 + 'a' as int) as char
  }

  predicate IsSimpleEscape(c: char) {
    c == '"' || c == '\\' || c == '/' || c == 'b' || c == 'f' || c == 'n' || c == 'r' || c == 't'
  }

  function Unescaped(c: char): char {
    match c
    case 'b' => BS
    case 'f' => FF
    case 'n' => '\n'
    case 'r' => '\r'
    case 't' => '\t'
    case _ => c
  }

  // ---------------------------------------------------------------------------------------------
  // Where the cursor goes
  // ---------------------------------------------------------------------------------------------

  function SkipSpace(t: string, p: nat): (q: nat)
    requires p <= |t|
    ensures p <= q <= |t|
    ensures q < |t| ==> !IsSpace(t[q])
    decreases |t| - p
  {
    if p < |t| && IsSpace(t[p]) then SkipSpace(t, p + 1) else p
  }

  function UnicodeEscape(t: string, p: nat): (r: Read)
    requires p <= |t|
    ensures r.Got? ==> r.pos == p + 4 <= |t| && |r.text| == 1
  {
    if p + 4 > |t| then Failed(IncompleteUnicode)
    else if !AllHex(t, p, 4) then Failed(InvalidUnicode)
    else if HexNumber(t, p, 4) > 0x7f then Failed(UnicodeAboveAscii)
    else Got(p + 4, [HexNumber(t, p, 4) as char])
  }

  function Prepend(prefix: string, r: Read): Read {
    if r.Got? then Got(r.pos, prefix + r.text) else r
  }

  // The rest of a string, the opening quote behind the cursor.
  function StringRest(t: string, p: nat): (r: Read)
    requires p <= |t|
    ensures r.Got? ==> p < r.pos <= |t| && |r.text| < r.pos - p
    decreases |t| - p
  {
    if p == |t| then Failed(UnterminatedString)
    else if t[p] == '"' then Got(p + 1, "")
    else if t[p] == '\\' then
      if p + 1 == |t| then Failed(IncompleteEscape)
      else if IsSimpleEscape(t[p + 1]) then Prepend([Unescaped(t[p + 1])], StringRest(t, p + 2))
      else if t[p + 1] == 'u' then
        var u := UnicodeEscape(t, p + 2);
        if u.Failed? then u else Prepend(u.text, StringRest(t, u.pos))
      else Failed(InvalidEscape)
    else if t[p] < ' ' then Failed(ControlCharacter)
    else Prepend([t[p]], StringRest(t, p + 1))
  }

  function ReadString(t: string, p: nat): (r: Read)
    requires p <= |t|
    ensures r.Got? ==> p + 1 < r.pos <= |t| && |r.text| < r.pos - p - 1
  {
    if p == |t| || t[p] != '"' then Failed(ExpectedString) else StringRest(t, p + 1)
  }

  function SkipDigits(t: string, p: nat): (q: nat)
    requires p <= |t|
    ensures p <= q <= |t|
    ensures q < |t| ==> !IsDigit(t[q])
    decreases |t| - p
  {
    if p < |t| && IsDigit(t[p]) then SkipDigits(t, p + 1) else p
  }

  function SkipOne(t: string, p: nat, c: char, c': char): (q: nat)
    requires p <= |t|
    ensures p <= q <= |t| && q <= p + 1
  {
    if p < |t| && (t[p] == c || t[p] == c') then p + 1 else p
  }

  function SkipFraction(t: string, p: nat): (r: Stop)
    requires p <= |t|
    ensures r.At? ==> p <= r.pos <= |t|
  {
    if p < |t| && t[p] == '.' then
      var q := SkipDigits(t, p + 1);
      if q == p + 1 then Bad(InvalidNumber) else At(q)
    else At(p)
  }

  function SkipExponent(t: string, p: nat): (r: Stop)
    requires p <= |t|
    ensures r.At? ==> p <= r.pos <= |t|
  {
    if p < |t| && (t[p] == 'e' || t[p] == 'E') then
      var start := SkipOne(t, p + 1, '+', '-');
      var q := SkipDigits(t, start);
      if q == start then Bad(InvalidNumber) else At(q)
    else At(p)
  }

  function SkipNumber(t: string, p: nat): (r: Stop)
    requires p <= |t|
    ensures r.At? ==> p < r.pos <= |t|
  {
    var start := SkipOne(t, p, '-', '-');
    var q := SkipDigits(t, start);
    if q == start then Bad(ExpectedStringOrNumber)
    else
      var f := SkipFraction(t, q);
      if f.Bad? then f else SkipExponent(t, f.pos)
  }

  lemma NumberParts(t: string, p: nat, start: nat, q: nat)
    requires p <= |t| && start == SkipOne(t, p, '-', '-') && q == SkipDigits(t, start)
    ensures SkipNumber(t, p) ==
            if q == start then Bad(ExpectedStringOrNumber)
            else if SkipFraction(t, q).Bad? then SkipFraction(t, q) else SkipExponent(t, SkipFraction(t, q).pos)
  {
    hide SkipDigits, SkipFraction, SkipExponent;
  }

  lemma FractionParts(t: string, p: nat)
    requires p <= |t|
    ensures SkipFraction(t, p) ==
            if p == |t| || t[p] != '.' then At(p)
            else if SkipDigits(t, p + 1) == p + 1 then Bad(InvalidNumber) else At(SkipDigits(t, p + 1))
  {
    hide SkipDigits;
  }


  function SkipLiteral(t: string, p: nat, literal: string): (r: Stop)
    requires p <= |t| && literal != ""
    ensures r.At? ==> p < r.pos <= |t|
  {
    // text.compare(pos, literal.size(), literal) == 0
    if p + |literal| <= |t| && t[p..p + |literal|] == literal then At(p + |literal|) else Bad(InvalidLiteral)
  }

  /** consumeJsonValue: every success moves the cursor, which is why the recursion ends. */
  function SkipValue(t: string, p: nat): (r: Stop)
    requires p <= |t|
    ensures r.At? ==> p < r.pos <= |t|
    decreases |t| - p, 2
  {
    var q := SkipSpace(t, p);
    if q == |t| then Bad(ExpectedValue)
    else if t[q] == '"' then ReadString(t, q).Stop()
    else if t[q] == '{' then SkipObject(t, q)
    else if t[q] == '[' then SkipArray(t, q)
    else if t[q] == 't' then SkipLiteral(t, q, "true")
    else if t[q] == 'f' then SkipLiteral(t, q, "false")
    else if t[q] == 'n' then SkipLiteral(t, q, "null")
    else SkipNumber(t, q)
  }

  function SkipArray(t: string, p: nat): (r: Stop)
    requires p < |t|
    ensures r.At? ==> p < r.pos <= |t|
    decreases |t| - p, 1
  {
    var q := SkipSpace(t, p + 1);
    if q < |t| && t[q] == ']' then At(q + 1) else SkipElements(t, q)
  }

  function SkipElements(t: string, p: nat): (r: Stop)
    requires p <= |t|
    ensures r.At? ==> p < r.pos <= |t|
    decreases |t| - p, 3
  {
    if p == |t| then Bad(UnterminatedArray)
    else
      var v := SkipValue(t, p);
      if v.Bad? then v
      else
        var q := SkipSpace(t, v.pos);
        if q == |t| then Bad(UnterminatedArray)
        else if t[q] == ']' then At(q + 1)
        else if t[q] != ',' then Bad(ExpectedCommaInArray)
        else SkipElements(t, SkipSpace(t, q + 1))
  }

  // A key, its colon and the spaces around the colon.
  function ReadKey(t: string, p: nat, noColon: JsonError): (r: Read)
    requires p <= |t|
    ensures r.Got? ==> p + 2 < r.pos <= |t| && |r.text| < r.pos - p - 2
  {
    var key := ReadString(t, p);
    if key.Failed? then key
    else
      var q := SkipSpace(t, key.pos);
      if q == |t| || t[q] != ':' then Failed(noColon) else Got(SkipSpace(t, q + 1), key.text)
  }

  function SkipObject(t: string, p: nat): (r: Stop)
    requires p < |t|
    ensures r.At? ==> p < r.pos <= |t|
    decreases |t| - p, 1
  {
    var q := SkipSpace(t, p + 1);
    if q < |t| && t[q] == '}' then At(q + 1) else SkipMembers(t, q)
  }

  function SkipMembers(t: string, p: nat): (r: Stop)
    requires p <= |t|
    ensures r.At? ==> p < r.pos <= |t|
    decreases |t| - p, 3
  {
    if p == |t| then Bad(UnterminatedObject)
    else
      var key := ReadKey(t, p, ExpectedColonInObject);
      if key.Failed? then Bad(key.error)
      else
        var v := SkipValue(t, key.pos);
        if v.Bad? then v
        else
          var q := SkipSpace(t, v.pos);
          if q == |t| then Bad(UnterminatedObject)
          else if t[q] == '}' then At(q + 1)
          else if t[q] != ',' then Bad(ExpectedCommaInObject)
          else SkipMembers(t, SkipSpace(t, q + 1))
  }

  // A member was read up to e, and q is the byte behind its spaces.
  lemma MembersBegin(t: string, p: nat) returns (k: nat, e: nat, q: nat)
    requires p <= |t| && SkipMembers(t, p).At?
    ensures ReadKey(t, p, ExpectedColonInObject).Got? && ReadKey(t, p, ExpectedColonInObject).pos == k
    ensures p < k < e <= q < |t| && SkipValue(t, k) == At(e) && SkipSpace(t, e) == q && (t[q] == '}' || t[q] == ',')
  {
    hide ReadKey, SkipValue, SkipSpace;
    k := ReadKey(t, p, ExpectedColonInObject).pos;
    e := SkipValue(t, k).pos;
    q := SkipSpace(t, e);
  }

  lemma ElementsBegin(t: string, p: nat) returns (e: nat, q: nat)
    requires p <= |t| && SkipElements(t, p).At?
    ensures p < e <= q < |t| && SkipValue(t, p) == At(e) && SkipSpace(t, e) == q && (t[q] == ']' || t[q] == ',')
  {
    hide SkipValue, SkipSpace;
    e := SkipValue(t, p).pos;
    q := SkipSpace(t, e);
  }

  // What comes behind a member that was read up to e.
  lemma MembersAfter(t: string, p: nat, k: nat, e: nat, q: nat)
    requires p < k < e <= q < |t| && SkipSpace(t, e) == q && (t[q] == '}' || t[q] == ',')
    requires ReadKey(t, p, ExpectedColonInObject).Got? && ReadKey(t, p, ExpectedColonInObject).pos == k
    requires SkipValue(t, k) == At(e)
    ensures SkipMembers(t, p) == if t[q] == '}' then At(q + 1) else SkipMembers(t, SkipSpace(t, q + 1))
  {
    hide SkipSpace, ReadKey, SkipValue;
  }

  lemma ElementsAfter(t: string, p: nat, e: nat, q: nat)
    requires p < e <= q < |t| && SkipSpace(t, e) == q && (t[q] == ']' || t[q] == ',') && SkipValue(t, p) == At(e)
    ensures SkipElements(t, p) == if t[q] == ']' then At(q + 1) else SkipElements(t, SkipSpace(t, q + 1))
  {
    hide SkipSpace, SkipValue;
  }

  predicate StartsRaw(c: char) { c == '{' || c == '[' || c == 't' || c == 'f' || c == 'n' }

  function Slice(t: string, p: nat, r: Stop): Read
    requires r.At? ==> p <= r.pos <= |t|
  {
    if r.At? then Got(r.pos, t[p..r.pos]) else Failed(r.error)
  }

  /** parseJsonValueAsString: a string is decoded, everything else is kept as it is written. */
  function ReadValue(t: string, p: nat): (r: Read)
    requires p <= |t|
    ensures r.Got? ==> p < r.pos <= |t| && |r.text| <= r.pos - p
  {
    if p < |t| && t[p] == '"' then ReadString(t, p)
    else if p < |t| && StartsRaw(t[p]) then Slice(t, p, SkipValue(t, p))
    else Slice(t, p, SkipNumber(t, p))
  }

  function ReadMembers(t: string, p: nat, fields: JsonObject): ObjectRead
    requires p <= |t|
    decreases |t| - p
  {
    if p == |t| then Malformed(UnterminatedObject)
    else
      var key := ReadKey(t, p, ExpectedColon);
      if key.Failed? then Malformed(key.error)
      else
        var value := ReadValue(t, key.pos);
        if value.Failed? then Malformed(value.error)
        else
          var q := SkipSpace(t, value.pos);
          var fields' := fields[key.text := value.text];
          if q == |t| then Malformed(UnterminatedObject)
          else if t[q] == '}' then Ended(t, q + 1, fields')
          else if t[q] != ',' then Malformed(ExpectedComma)
          else ReadMembers(t, SkipSpace(t, q + 1), fields')
  }

  function Ended(t: string, p: nat, fields: JsonObject): ObjectRead
    requires p <= |t|
  {
    if SkipSpace(t, p) == |t| then Object(fields) else Malformed(TrailingContent)
  }

  /** parseJsonObject */
  function Parse(t: string): ObjectRead {
    var p := SkipSpace(t, 0);
    if p == |t| || t[p] != '{' then Malformed(ExpectedObject)
    else
      var q := SkipSpace(t, p + 1);
      if q < |t| && t[q] == '}' then Ended(t, q + 1, map[]) else ReadMembers(t, q, map[])
  }

  // ---------------------------------------------------------------------------------------------
  // What the writer writes
  // ---------------------------------------------------------------------------------------------

  predicate HasShortEscape(c: char) {
    c == '"' || c == '\\' || c == BS || c == FF || c == '\n' || c == '\r' || c == '\t'
  }

  function ShortEscape(c: char): char
    requires HasShortEscape(c)
  {
    match c
    case '\n' => 'n'
    case '\r' => 'r'
    case '\t' => 't'
    case _ => if c == BS then 'b' else if c == FF then 'f' else c
  }

  function EscapeChar(c: char): string {
    if HasShortEscape(c) then ['\\', ShortEscape(c)]
    else if c < ' ' then ['\\', 'u', '0', '0', HexDigit(c as int / 16), HexDigit(c as int % 16)]
    else [c]
  }

  function Escape(s: string): string {
    if s == "" then "" else EscapeChar(s[0]) + Escape(s[1..])
  }

  function Quote(s: string): string { "\"" + Escape(s) + "\"" }

  function Field(key: string, value: string): string { Quote(key) + ":" + Quote(value) }

  function Fields(fields: JsonObject, keys: seq<string>): string
    requires forall k | k in keys :: k in fields
  {
    if keys == [] then "" else Field(keys[0], fields[keys[0]]) + MoreFields(fields, keys[1..])
  }

  function MoreFields(fields: JsonObject, keys: seq<string>): string
    requires forall k | k in keys :: k in fields
  {
    if keys == [] then "" else "," + Field(keys[0], fields[keys[0]]) + MoreFields(fields, keys[1..])
  }

  /** serializeJsonObject: the fields in the order std::map walks its keys. */
  function Serialize(fields: JsonObject): string {
    AscendingIsSorted(fields.Keys);
    "{" + Fields(fields, Ascending(fields.Keys)) + "}"
  }

  function MakeJsonLine(fields: JsonObject): string { Serialize(fields) + "\n" }
}
