/** The characters of JSON one by one, what is written of them, and which fault a malformed text has: the
    errors of common/Json.cc, against the grammar of section 7 of RFC 8259. */
module JsonFaults {
  import opened Names
  import opened Json
  import opened JsonRoundTrip
  import opened JsonGrammar
  import opened JsonSoundness
  import opened JsonObjects

  // ---------------------------------------------------------------------------------------------
  // Characters
  // ---------------------------------------------------------------------------------------------

  /** Hexadecimal digits of either case, and what they count; white space is what isspace says. */
  lemma DigitLaw(c: char)
    ensures IsHex(c) <==> c in "0123456789abcdefABCDEF"
    ensures IsDigit(c) <==> c in "0123456789"
    ensures IsSpace(c) <==> c as int in {9, 10, 11, 12, 13, 32}
    ensures forall v | 0 <= v < 16 :: HexDigit(v) == "0123456789abcdef"[v]
    ensures IsHex(c) ==>
              var v := HexValue(c); c == HexDigit(v) || (v >= 10 && c == "ABCDEF"[v - 10])
  {
  }

  /** Four digits are read as a number to the base of sixteen. */
  lemma UnicodeLaw(t: string, p: nat)
    requires p + 4 <= |t| && AllHex(t, p, 4)
    ensures HexNumber(t, p, 4) == 4096 * HexValue(t[p]) + 256 * HexValue(t[p + 1]) + 16 * HexValue(t[p + 2]) + HexValue(t[p + 3])
  {
    assert HexNumber(t, p, 1) == HexValue(t[p]);
    assert HexNumber(t, p, 2) == HexNumber(t, p, 1) * 16 + HexValue(t[p + 1]);
    assert HexNumber(t, p, 3) == HexNumber(t, p, 2) * 16 + HexValue(t[p + 2]);
  }

  /** The eight escapes stand for these bytes, and are read on from behind them. */
  lemma EscapeLaw(t: string, p: nat)
    requires p + 2 <= |t| && t[p] == '\\'
    ensures var rest := StringRest(t, p + 2);
            && (t[p + 1] == '"' ==> StringRest(t, p) == Prepend("\"", rest))
            && (t[p + 1] == '\\' ==> StringRest(t, p) == Prepend("\\", rest))
            && (t[p + 1] == '/' ==> StringRest(t, p) == Prepend("/", rest))
            && (t[p + 1] == 'b' ==> StringRest(t, p) == Prepend("\U{0008}", rest))
            && (t[p + 1] == 'f' ==> StringRest(t, p) == Prepend("\U{000C}", rest))
            && (t[p + 1] == 'n' ==> StringRest(t, p) == Prepend("\n", rest))
            && (t[p + 1] == 'r' ==> StringRest(t, p) == Prepend("\r", rest))
            && (t[p + 1] == 't' ==> StringRest(t, p) == Prepend("\t", rest))
  {
  }

  /** Quotes, backslashes and five control characters are written with their short escape, the other control
      characters as \u00xy, and every other byte as it is. */
  lemma WritingLaw(c: char)
    ensures c == '"' ==> EscapeChar(c) == "\\\""
    ensures c == '\\' ==> EscapeChar(c) == "\\\\"
    ensures c == '\U{0008}' ==> EscapeChar(c) == "\\b"
    ensures c == '\U{000C}' ==> EscapeChar(c) == "\\f"
    ensures c == '\n' ==> EscapeChar(c) == "\\n"
    ensures c == '\r' ==> EscapeChar(c) == "\\r"
    ensures c == '\t' ==> EscapeChar(c) == "\\t"
    ensures c < ' ' && c !in "\U{0008}\U{000C}\n\r\t" ==>
              EscapeChar(c) == "\\u00" + [HexDigit(c as int / 16)] + [HexDigit(c as int % 16)]
    ensures c >= ' ' && c != '"' && c != '\\' ==> EscapeChar(c) == [c]
  {
    assert "\U{0008}\U{000C}\n\r\t" == ['\U{0008}', '\U{000C}', '\n', '\r', '\t'];
    assert "\\u00" == ['\\', 'u', '0', '0'];
  }

  // ---------------------------------------------------------------------------------------------
  // The fault of a string
  // ---------------------------------------------------------------------------------------------

  // What is wrong with a string at q, all before it being right.
  ghost predicate FaultAt(t: string, q: nat, error: JsonError)
    requires q <= |t|
  {
    match error
    case UnterminatedString => q == |t|
    case ControlCharacter => q < |t| && t[q] < ' '
    case IncompleteEscape => q + 1 == |t| && t[q] == '\\'
    case InvalidEscape => q + 1 < |t| && t[q] == '\\' && t[q + 1] !in "\"\\/bfnrtu"
    case IncompleteUnicode => q + 1 < |t| < q + 6 && t[q] == '\\' && t[q + 1] == 'u'
    case InvalidUnicode => q + 6 <= |t| && t[q] == '\\' && t[q + 1] == 'u' && exists i | q + 2 <= i < q + 6 :: !IsHex(t[i])
    case UnicodeAboveAscii => q + 6 <= |t| && t[q] == '\\' && t[q + 1] == 'u' && AllHex(t, q + 2, 4) && HexNumber(t, q + 2, 4) > 0x7f
    case _ => false
  }

  lemma FaultHere(t: string, q: nat, error: JsonError)
    requires q <= |t|
    ensures FaultAt(t, q, error) ==> StringRest(t, q) == Failed(error)
  {
    assert "\"\\/bfnrtu" == ['"', '\\', '/', 'b', 'f', 'n', 'r', 't', 'u'];
  }

  lemma {:induction false} CharsPassed(t: string, p: nat, cs: seq<StringChar>)
    requires p <= |t| && CharsOk(cs) && Matches(t, p, WriteChars(cs))
    ensures p + |WriteChars(cs)| <= |t|
    ensures var rest := StringRest(t, p + |WriteChars(cs)|);
            rest.Failed? ==> StringRest(t, p) == rest
    decreases |cs|
  {
    hide StringRest, Matches, CharOk, WriteChar, DecodeChar, WriteChars;
    MatchesSlice(t, p, WriteChars(cs));
    if cs == [] {
      NothingWritten();
    } else {
      var w := WriteChar(cs[0]);
      CharsWritten(cs);
      MatchesSplit(t, p, w, WriteChars(cs[1..]));
      CharsPassed(t, p + |w|, cs[1..]);
      CharAccepted(t, p, cs[0]);
    }
  }

  lemma CharsWritten(cs: seq<StringChar>)
    requires cs != []
    ensures WriteChars(cs) == WriteChar(cs[0]) + WriteChars(cs[1..])
  {
    hide WriteChar;
  }

  // A character that is right, in a string that goes wrong behind it.
  lemma RightChar(t: string, p: nat) returns (c: StringChar)
    requires p <= |t| && StringRest(t, p).Failed? && !FaultAt(t, p, StringRest(t, p).error)
    ensures CharOk(c)
    ensures var q := p + |WriteChar(c)|;
            p < q <= |t| && t[p..q] == WriteChar(c) && StringRest(t, q) == StringRest(t, p)
  {
    assert "\"\\/bfnrtu" == ['"', '\\', '/', 'b', 'f', 'n', 'r', 't', 'u'];
    if t[p] != '\\' {
      c := Plain(t[p]);
    } else if IsSimpleEscape(t[p + 1]) {
      c := Short(t[p + 1]);
    } else {
      var digits := t[p + 2..p + 6];
      c := Unicode(digits);
      forall i | p + 2 <= i < p + 6 ensures t[i] == digits[i - (p + 2)] {}
      HexBack(t, p + 2, digits, 4);
      assert t[p..p + 6] == [t[p], t[p + 1]] + digits;
    }
  }

  lemma {:induction false} FaultFound(t: string, p: nat) returns (cs: seq<StringChar>)
    requires p <= |t| && StringRest(t, p).Failed?
    ensures CharsOk(cs) && Matches(t, p, WriteChars(cs)) && p + |WriteChars(cs)| <= |t|
    ensures FaultAt(t, p + |WriteChars(cs)|, StringRest(t, p).error)
    decreases |t| - p
  {
    hide StringRest, FaultAt, CharOk, WriteChar, Matches, WriteChars;
    if FaultAt(t, p, StringRest(t, p).error) {
      cs := [];
      NothingWritten();
      MatchesSlice(t, p, []);
    } else {
      var c := RightChar(t, p);
      var q := p + |WriteChar(c)|;
      var rest := FaultFound(t, q);
      cs := [c] + rest;
      CharsWritten(cs);
      assert cs[1..] == rest;
      MatchesSlice(t, q, WriteChars(rest));
      MatchesSlice(t, p, WriteChars(cs));
      var end := q + |WriteChars(rest)|;
      assert t[p..end] == t[p..q] + t[q..end];
    }
  }

  /** A string is refused with the fault that comes first: exactly if legal characters lead up to a place
      where that is wrong. */
  lemma FirstFault(t: string, p: nat, error: JsonError)
    requires p <= |t|
    ensures StringRest(t, p) == Failed(error) <==>
            exists cs :: CharsOk(cs) && Matches(t, p, WriteChars(cs)) && p + |WriteChars(cs)| <= |t|
                         && FaultAt(t, p + |WriteChars(cs)|, error)
  {
    hide StringRest, FaultAt, CharsOk, WriteChars, Matches;
    if StringRest(t, p) == Failed(error) {
      var cs := FaultFound(t, p);
    }
    if cs :| CharsOk(cs) && Matches(t, p, WriteChars(cs)) && p + |WriteChars(cs)| <= |t| && FaultAt(t, p + |WriteChars(cs)|, error) {
      CharsPassed(t, p, cs);
      FaultHere(t, p + |WriteChars(cs)|, error);
    }
  }

  // ---------------------------------------------------------------------------------------------
  // The fault of a value
  // ---------------------------------------------------------------------------------------------

  /** In an array the fault of an element is the fault; behind a good one there must be a comma or the bracket. */
  lemma ElementFault(t: string, p: nat)
    requires p <= |t|
    ensures p == |t| ==> SkipElements(t, p) == Bad(UnterminatedArray)
    ensures p < |t| && SkipValue(t, p).Bad? ==> SkipElements(t, p) == SkipValue(t, p)
    ensures p < |t| && SkipValue(t, p).At? ==>
              var q := SkipSpace(t, SkipValue(t, p).pos);
              && (q == |t| ==> SkipElements(t, p) == Bad(UnterminatedArray))
              && (q < |t| && t[q] != ',' && t[q] != ']' ==> SkipElements(t, p) == Bad(ExpectedCommaInArray))
  {
    hide SkipValue, SkipSpace;
  }

  /** In an object so is that of a key or a value; there must be a colon behind the key, and a comma or the brace
      behind the value; the object read for its fields has other words for the same faults. */
  lemma MemberFault(t: string, p: nat, fields: JsonObject)
    requires p <= |t|
    ensures p == |t| ==> SkipMembers(t, p) == Bad(UnterminatedObject) && ReadMembers(t, p, fields) == Malformed(UnterminatedObject)
    ensures p < |t| && ReadString(t, p).Failed? ==>
              var error := ReadString(t, p).error;
              SkipMembers(t, p) == Bad(error) && ReadMembers(t, p, fields) == Malformed(error)
    ensures p < |t| && ReadString(t, p).Got? ==>
              var e := SkipSpace(t, ReadString(t, p).pos);
              && (e == |t| || t[e] != ':' ==>
                    SkipMembers(t, p) == Bad(ExpectedColonInObject) && ReadMembers(t, p, fields) == Malformed(ExpectedColon))
              && (e < |t| && t[e] == ':' ==>
                    var k := SkipSpace(t, e + 1);
                    && (SkipValue(t, k).Bad? ==> SkipMembers(t, p) == SkipValue(t, k))
                    && (ReadValue(t, k).Failed? ==> ReadMembers(t, p, fields) == Malformed(ReadValue(t, k).error)))
  {
    hide ReadString, SkipValue, SkipSpace, ReadValue;
  }

  lemma BehindMember(t: string, p: nat, fields: JsonObject)
    requires p < |t| && ReadKey(t, p, ExpectedColon).Got?
    ensures ReadKey(t, p, ExpectedColonInObject) == ReadKey(t, p, ExpectedColon)
    ensures var k := ReadKey(t, p, ExpectedColon).pos;
            && (SkipValue(t, k).At? ==>
                  var q := SkipSpace(t, SkipValue(t, k).pos);
                  && (q == |t| ==> SkipMembers(t, p) == Bad(UnterminatedObject))
                  && (q < |t| && t[q] != ',' && t[q] != '}' ==> SkipMembers(t, p) == Bad(ExpectedCommaInObject)))
            && (ReadValue(t, k).Got? ==>
                  var q := SkipSpace(t, ReadValue(t, k).pos);
                  && (q == |t| ==> ReadMembers(t, p, fields) == Malformed(UnterminatedObject))
                  && (q < |t| && t[q] != ',' && t[q] != '}' ==> ReadMembers(t, p, fields) == Malformed(ExpectedComma)))
  {
    hide ReadString, SkipValue, SkipSpace, ReadValue;
  }

  /** Where there is no value at all, a misspelled literal, or a byte no value starts with. */
  lemma ValueFault(t: string, p: nat)
    requires p <= |t| && SkipSpace(t, p) == p
    ensures p == |t| ==> SkipValue(t, p) == Bad(ExpectedValue)
    ensures p < |t| && t[p] == 't' ==> SkipValue(t, p) == if p + 4 <= |t| && t[p..p + 4] == "true" then At(p + 4) else Bad(InvalidLiteral)
    ensures p < |t| && t[p] == 'f' ==> SkipValue(t, p) == if p + 5 <= |t| && t[p..p + 5] == "false" then At(p + 5) else Bad(InvalidLiteral)
    ensures p < |t| && t[p] == 'n' ==> SkipValue(t, p) == if p + 4 <= |t| && t[p..p + 4] == "null" then At(p + 4) else Bad(InvalidLiteral)
    ensures p < |t| && t[p] !in ['"', '{', '[', 't', 'f', 'n', '-'] && !IsDigit(t[p]) ==> SkipValue(t, p) == Bad(ExpectedStringOrNumber)
  {
    hide ReadString, SkipObject, SkipArray, SkipNumber, SkipSpace;
    if p < |t| && t[p] != '-' && !IsDigit(t[p]) { NoDigits(t, p); }
  }

  lemma NoDigits(t: string, p: nat)
    requires p < |t| && t[p] != '-' && !IsDigit(t[p])
    ensures SkipNumber(t, p) == Bad(ExpectedStringOrNumber)
  {
    hide SkipFraction, SkipExponent;
  }

  // ---------------------------------------------------------------------------------------------
  // The fault of a text
  // ---------------------------------------------------------------------------------------------

  /** A text whose first byte behind white space is not a brace is no object. */
  lemma NoObject(lead: string, rest: string)
    requires SpaceOk(lead, false) && (rest == "" || (!IsSpace(rest[0]) && rest[0] != '{'))
    ensures Parse(lead + rest) == Malformed(ExpectedObject)
  {
    hide Matches, SpaceOk, ReadMembers;
    var t := lead + rest;
    MatchesSlice(t, 0, lead);
    assert t[0..0 + |lead|] == lead;
    SpaceSkipped(t, 0, lead);
    if rest != "" { assert t[|lead|] == rest[0]; }
  }

  /** One object with something behind it is refused for that. */
  lemma TrailingIsRefused(lead: string, v: Value, trail: string, rest: string)
    requires SpaceOk(lead, false) && Ok(v, false) && IsObject(v) && SpaceOk(trail, false) && rest != "" && !IsSpace(rest[0])
    ensures Parse(lead + (Write(v) + (trail + rest))) == Malformed(TrailingContent)
  {
    hide *;
    var t := lead + (Write(v) + (trail + rest));
    var p, e := |lead|, |lead| + |Write(v)|;
    WholeMatches(t);
    BraceIsNoSpace(v);
    SpaceThen(t, 0, lead, Write(v) + (trail + rest));
    MatchesSplit(t, p, Write(v), trail + rest);
    SpaceThen(t, e, trail, rest);
    ObjectIsRead(t, p, v);
    ParseGoesOn(t, p, e, v);
  }

  lemma ParseGoesOn(t: string, p: nat, e: nat, v: Value)
    requires Ok(v, false) && IsObject(v) && p == SkipSpace(t, 0) && p < |t| && t[p] == '{' && e <= |t| && SkipSpace(t, e) < |t|
    requires var q := SkipSpace(t, p + 1);
             if q < |t| && t[q] == '}' then v.EmptyObject? && e == q + 1
             else v.ObjectOf? && ReadMembers(t, q, map[]) == Ended(t, e, MapOf(v))
    ensures Parse(t) == Malformed(TrailingContent)
  {
    hide SkipSpace, ReadMembers, Ok, MapOf;
  }

  // ---------------------------------------------------------------------------------------------
  // The order of the fields
  // ---------------------------------------------------------------------------------------------

  lemma {:induction false} LeastFirst(s: set<string>, k: string)
    requires k in s && forall x | x in s && x != k :: Less(k, x)
    ensures Least(s) == k
  {
    LessIsTotal(k, Least(s));
  }

  /** Fields are written in ascending order of their keys: the least comes first, and behind it, after a comma,
      what is written of the others. */
  lemma LeastFieldFirst(fields: JsonObject, k: string) returns (more: string)
    requires k in fields && forall x | x in fields && x != k :: Less(k, x)
    ensures Serialize(fields) == "{" + (Field(k, fields[k]) + more) + "}"
    ensures if fields - {k} == map[] then more == ""
            else more != "" && more[0] == ',' && Serialize(fields - {k}) == "{" + more[1..] + "}"
  {
    var rest := fields - {k};
    var keys := KeysFrom(fields, k, rest);
    hide Field, Least, Ascending;
    SameMore(fields, rest, keys);
    more := MoreFields(fields, keys);
    if keys != [] { CommaOff(more, Fields(rest, keys)); }
  }

  lemma CommaOff(more: string, fields: string)
    requires more == "," + fields
    ensures more != "" && more[0] == ',' && more[1..] == fields
  {
  }

  lemma KeysFrom(fields: JsonObject, k: string, rest: JsonObject) returns (keys: seq<string>)
    requires k in fields && rest == fields - {k} && forall x | x in fields && x != k :: Less(k, x)
    ensures keys == Ascending(rest.Keys) && (keys == [] <==> rest == map[])
    ensures Ascending(fields.Keys) == [k] + keys && Ascending(fields.Keys)[0] == k && Ascending(fields.Keys)[1..] == keys
    ensures forall x | x in keys :: x in fields && x in rest && fields[x] == rest[x]
  {
    keys := Ascending(rest.Keys);
    LeastFirst(fields.Keys, k);
    assert fields.Keys - {k} == rest.Keys;
    AscendingIsSorted(rest.Keys);
    hide Least;
    assert rest.Keys == {} <==> rest == map[];
  }

  lemma {:induction false} SameMore(fields: JsonObject, rest: JsonObject, keys: seq<string>)
    requires forall k | k in keys :: k in fields && k in rest && fields[k] == rest[k]
    ensures MoreFields(fields, keys) == MoreFields(rest, keys)
    ensures keys != [] ==> MoreFields(rest, keys) == "," + Fields(rest, keys)
    decreases |keys|
  {
    hide Field;
    if keys != [] { SameMore(fields, rest, keys[1..]); }
  }
}
