/** The language consumeJsonValue accepts, against the grammar of RFC 8259 sections 2 to 7. */
module JsonGrammar {
  import opened Json
  import opened JsonRoundTrip

  // ---------------------------------------------------------------------------------------------
  // Values as syntax, with the white space the grammar allows around structural characters
  // ---------------------------------------------------------------------------------------------

  datatype StringChar = Plain(c: char) | Short(c: char) | Unicode(digits: string)

  datatype Value =
    | Literal(word: string)
    | Number(minus: bool, digits: string, fraction: string, exponent: string)
    | Text(chars: seq<StringChar>)
    | EmptyArray(space: string)
    | Array(space: string, elements: Elements)
    | EmptyObject(space: string)
    | ObjectOf(space: string, members: Members)

  datatype Elements =
    | LastElement(value: Value, after: string)
    | NextElement(value: Value, after: string, before: string, rest: Elements)

  // A key, the spaces around its colon, and its value.
  datatype Member = Member(key: seq<StringChar>, beforeColon: string, afterColon: string, value: Value)

  datatype Members =
    | LastMember(member: Member, after: string)
    | NextMember(member: Member, after: string, before: string, rest: Members)

  function WriteChar(c: StringChar): string {
    match c
    case Plain(c) => [c]
    case Short(c) => ['\\', c]
    case Unicode(digits) => ['\\', 'u'] + digits
  }

  function WriteChars(cs: seq<StringChar>): string {
    if cs == [] then "" else WriteChar(cs[0]) + WriteChars(cs[1..])
  }

  function WriteString(cs: seq<StringChar>): string { ['"'] + (WriteChars(cs) + ['"']) }

  function WriteNumber(minus: bool, digits: string, fraction: string, exponent: string): string {
    (if minus then ['-'] else []) + (digits + (fraction + exponent))
  }

  function Write(v: Value): string {
    match v
    case Literal(word) => word
    case Number(minus, digits, fraction, exponent) => WriteNumber(minus, digits, fraction, exponent)
    case Text(cs) => WriteString(cs)
    case EmptyArray(space) => ['['] + (space + [']'])
    case Array(space, es) => ['['] + (space + (WriteElements(es) + [']']))
    case EmptyObject(space) => ['{'] + (space + ['}'])
    case ObjectOf(space, ms) => ['{'] + (space + (WriteMembers(ms) + ['}']))
  }

  function WriteElements(es: Elements): string {
    match es
    case LastElement(v, after) => Write(v) + after
    case NextElement(v, after, before, rest) => Write(v) + (after + ([','] + (before + WriteElements(rest))))
  }

  function WriteMember(m: Member): string {
    WriteString(m.key) + (m.beforeColon + ([':'] + (m.afterColon + Write(m.value))))
  }

  function WriteMembers(ms: Members): string {
    match ms
    case LastMember(m, after) => WriteMember(m) + after
    case NextMember(m, after, before, rest) => WriteMember(m) + (after + ([','] + (before + WriteMembers(rest))))
  }

  // ---------------------------------------------------------------------------------------------
  // Which syntax is legal: by the RFC (strict), or by the source (not strict)
  // ---------------------------------------------------------------------------------------------

  predicate IsRfcSpace(c: char) { c == ' ' || c == '\t' || c == '\n' || c == '\r' }

  predicate SpaceOk(s: string, strict: bool) {
    forall c | c in s :: if strict then IsRfcSpace(c) else IsSpace(c)
  }

  predicate AllDigits(s: string) { forall c | c in s :: IsDigit(c) }

  predicate FractionOk(s: string) { s == "" || (|s| >= 2 && s[0] == '.' && AllDigits(s[1..])) }

  predicate ExponentOk(s: string) {
    || s == ""
    || (|s| >= 2 && (s[0] == 'e' || s[0] == 'E') && AllDigits(s[1..]))
    || (|s| >= 3 && (s[0] == 'e' || s[0] == 'E') && (s[1] == '+' || s[1] == '-') && AllDigits(s[2..]))
  }

  // The RFC forbids a leading zero; the source does not look.
  predicate IntegerOk(s: string, strict: bool) {
    s != "" && AllDigits(s) && (strict ==> s[0] != '0' || |s| == 1)
  }

  // The escapes of RFC 8259 section 7, \u restricted to ASCII.
  predicate CharOk(c: StringChar) {
    match c
    case Plain(c) => c >= ' ' && c != '"' && c != '\\'
    case Short(c) => IsSimpleEscape(c)
    case Unicode(digits) => |digits| == 4 && AllHex(digits, 0, 4) && HexNumber(digits, 0, 4) <= 0x7f
  }

  predicate CharsOk(cs: seq<StringChar>) { forall c | c in cs :: CharOk(c) }

  // The byte a character of a string stands for.
  function DecodeChar(c: StringChar): char
    requires CharOk(c)
  {
    match c
    case Plain(c) => c
    case Short(c) =>
      if c == 'b' then '\U{0008}' else if c == 'f' then '\U{000C}' else if c == 'n' then '\n'
      else if c == 'r' then '\r' else if c == 't' then '\t' else c
    case Unicode(digits) => HexNumber(digits, 0, 4) as char
  }

  function Decode(cs: seq<StringChar>): string
    requires CharsOk(cs)
  {
    if cs == [] then "" else [DecodeChar(cs[0])] + Decode(cs[1..])
  }

  predicate IsLiteral(word: string) { word == "true" || word == "false" || word == "null" }

  predicate Ok(v: Value, strict: bool) {
    match v
    case Literal(word) => IsLiteral(word)
    case Number(_, digits, fraction, exponent) =>
      IntegerOk(digits, strict) && FractionOk(fraction) && ExponentOk(exponent)
    case Text(cs) => CharsOk(cs)
    case EmptyArray(space) => SpaceOk(space, strict)
    case Array(space, es) => SpaceOk(space, strict) && ElementsOk(es, strict)
    case EmptyObject(space) => SpaceOk(space, strict)
    case ObjectOf(space, ms) => SpaceOk(space, strict) && MembersOk(ms, strict)
  }

  predicate ElementsOk(es: Elements, strict: bool) {
    && Ok(es.value, strict) && SpaceOk(es.after, strict)
    && (es.NextElement? ==> SpaceOk(es.before, strict) && ElementsOk(es.rest, strict))
  }

  predicate MemberOk(m: Member, strict: bool) {
    CharsOk(m.key) && SpaceOk(m.beforeColon, strict) && SpaceOk(m.afterColon, strict) && Ok(m.value, strict)
  }

  predicate MembersOk(ms: Members, strict: bool) {
    && MemberOk(ms.member, strict) && SpaceOk(ms.after, strict)
    && (ms.NextMember? ==> SpaceOk(ms.before, strict) && MembersOk(ms.rest, strict))
  }

  /** Everything the RFC allows, the source allows. */
  lemma StrictIsOk(v: Value)
    requires Ok(v, true)
    ensures Ok(v, false)
  {
    match v
    case Array(_, es) => StrictElementsAreOk(es);
    case ObjectOf(_, ms) => StrictMembersAreOk(ms);
    case _ =>
  }

  lemma StrictElementsAreOk(es: Elements)
    requires ElementsOk(es, true)
    ensures ElementsOk(es, false)
  {
    StrictIsOk(es.value);
    if es.NextElement? { StrictElementsAreOk(es.rest); }
  }

  lemma StrictMembersAreOk(ms: Members)
    requires MembersOk(ms, true)
    ensures MembersOk(ms, false)
  {
    StrictIsOk(ms.member.value);
    if ms.NextMember? { StrictMembersAreOk(ms.rest); }
  }

  // ---------------------------------------------------------------------------------------------
  // Completeness: what is legal is accepted
  // ---------------------------------------------------------------------------------------------

  // Nothing that could continue a number.
  predicate Delimited(t: string, e: nat) {
    e >= |t| || IsSpace(t[e]) || t[e] == ',' || t[e] == ']' || t[e] == '}'
  }

  lemma {:induction false} SpaceSkipped(t: string, p: nat, space: string)
    requires p <= |t| && Matches(t, p, space) && SpaceOk(space, false)
    ensures p + |space| <= |t| && SkipSpace(t, p) == SkipSpace(t, p + |space|)
    decreases |space|
  {
    if space != "" {
      SpaceSkipped(t, p + 1, space[1..]);
      assert space[0] in space;
    }
  }

  lemma {:induction false} DigitsSkipped(t: string, p: nat, digits: string)
    requires p <= |t| && Matches(t, p, digits) && AllDigits(digits)
    ensures p + |digits| <= |t| && SkipDigits(t, p) == SkipDigits(t, p + |digits|)
    decreases |digits|
  {
    if digits != "" {
      DigitsSkipped(t, p + 1, digits[1..]);
      assert digits[0] in digits;
    }
  }

  lemma UnicodeAccepted(t: string, p: nat, digits: string)
    requires p <= |t| && CharOk(Unicode(digits)) && Matches(t, p, digits)
    ensures p + 4 <= |t| && UnicodeEscape(t, p) == Got(p + 4, [DecodeChar(Unicode(digits))])
  {
    MatchesSlice(t, p, digits);
    forall i | p <= i < p + 4 ensures t[i] == digits[i - p] { assert t[i] == t[p..p + 4][i - p]; }
    HexSame(t, p, digits, 4);
  }

  lemma {:induction false} HexSame(t: string, p: nat, digits: string, n: nat)
    requires p + n <= |t| && n <= |digits| && AllHex(digits, 0, n) && forall i | p <= i < p + n :: t[i] == digits[i - p]
    ensures AllHex(t, p, n) && HexNumber(t, p, n) == HexNumber(digits, 0, n)
    decreases n
  {
    if n > 0 { HexSame(t, p, digits, n - 1); }
  }

  // One character, escaped or not; what follows it is read on its own.
  lemma CharAccepted(t: string, p: nat, c: StringChar)
    requires p + |WriteChar(c)| <= |t| && CharOk(c) && Matches(t, p, WriteChar(c))
    ensures StringRest(t, p) == Prepend([DecodeChar(c)], StringRest(t, p + |WriteChar(c)|))
  {
    var w := WriteChar(c);
    MatchesAt(t, p, w, 0);
    if |w| > 1 { MatchesAt(t, p, w, 1); }
    if c.Unicode? {
      MatchesSplit(t, p, ['\\', 'u'], c.digits);
      UnicodeAccepted(t, p + 2, c.digits);
    }
    hide Matches;
  }

  lemma FirstCharWritten(cs: seq<StringChar>)
    requires cs != []
    ensures WriteChars(cs) + ['"'] == WriteChar(cs[0]) + (WriteChars(cs[1..]) + ['"'])
    ensures |WriteChars(cs)| == |WriteChar(cs[0])| + |WriteChars(cs[1..])|
  {
    hide WriteChar;
  }

  lemma NothingWritten()
    ensures WriteChars([]) == []
  {
  }

  lemma {:induction false} CharsAccepted(t: string, p: nat, cs: seq<StringChar>)
    requires p <= |t| && CharsOk(cs) && Matches(t, p, WriteChars(cs) + ['"'])
    ensures StringRest(t, p) == Got(p + |WriteChars(cs)| + 1, Decode(cs))
    decreases |cs|
  {
    hide Matches, CharOk, WriteChar, DecodeChar, WriteChars, StringRest;
    if cs == [] {
      assert WriteChars(cs) + ['"'] == ['"'] by { NothingWritten(); }
      MatchesAt(t, p, ['"'], 0);
      StringEnds(t, p);
    } else {
      var w, rest := WriteChar(cs[0]), WriteChars(cs[1..]) + ['"'];
      FirstCharWritten(cs);
      MatchesSplit(t, p, w, rest);
      CharsAccepted(t, p + |w|, cs[1..]);
      CharAccepted(t, p, cs[0]);
    }
  }

  lemma StringAccepted(t: string, p: nat, cs: seq<StringChar>)
    requires p <= |t| && CharsOk(cs) && Matches(t, p, WriteString(cs))
    ensures p < |t| && t[p] == '"'
    ensures ReadString(t, p) == Got(p + |WriteString(cs)|, Decode(cs))
  {
    hide WriteChars, StringRest, Matches, Decode, CharOk;
    MatchesSplit(t, p, ['"'], WriteChars(cs) + ['"']);
    MatchesAt(t, p, ['"'], 0);
    CharsAccepted(t, p + 1, cs);
  }

  lemma FractionAccepted(t: string, p: nat, fraction: string)
    requires p <= |t| && FractionOk(fraction) && Matches(t, p, fraction)
    requires p + |fraction| < |t| ==> !IsDigit(t[p + |fraction|]) && t[p + |fraction|] != '.'
    ensures p + |fraction| <= |t| && SkipFraction(t, p) == At(p + |fraction|)
  {
    if fraction != "" {
      DigitsSkipped(t, p + 1, fraction[1..]);
    }
  }

  lemma ExponentAccepted(t: string, p: nat, exponent: string)
    requires p <= |t| && ExponentOk(exponent) && Matches(t, p, exponent) && Delimited(t, p + |exponent|)
    ensures p + |exponent| <= |t| && SkipExponent(t, p) == At(p + |exponent|)
  {
    if exponent != "" {
      var e := p + |exponent|;
      MatchesAt(t, p, exponent, 1);
      assert exponent[1] == exponent[1..][0] && exponent[1] in exponent[1..];
      if exponent[1] == '+' || exponent[1] == '-' {
        assert !AllDigits(exponent[1..]) && exponent[1..][1..] == exponent[2..];
        DigitsSkipped(t, p + 2, exponent[2..]);
      } else {
        DigitsSkipped(t, p + 1, exponent[1..]);
      }
      assert SkipDigits(t, e) == e;
    }
  }

  lemma NumberAccepted(t: string, p: nat, minus: bool, digits: string, fraction: string, exponent: string)
    requires p <= |t| && IntegerOk(digits, false) && FractionOk(fraction) && ExponentOk(exponent)
    requires Matches(t, p, WriteNumber(minus, digits, fraction, exponent))
    requires Delimited(t, p + |WriteNumber(minus, digits, fraction, exponent)|)
    ensures p < |t| && (IsDigit(t[p]) || t[p] == '-')
    ensures SkipNumber(t, p) == At(p + |WriteNumber(minus, digits, fraction, exponent)|)
  {
    hide Matches, SkipNumber, SkipDigits, SkipFraction, SkipExponent, FractionOk, ExponentOk, AllDigits, Delimited;
    var sign := if minus then ['-'] else [];
    MatchesSplit(t, p, sign, digits + (fraction + exponent));
    var start := p + |sign|;
    MatchesSplit(t, start, digits, fraction + exponent);
    var q := start + |digits|;
    MatchesSplit(t, q, fraction, exponent);
    if minus { MatchesAt(t, p, sign, 0); }
    MatchesAt(t, start, digits, 0);
    FirstDigit(digits);
    DigitsSkipped(t, start, digits);
    TailAccepted(t, q, fraction, exponent);
    NumberParts(t, p, start, q);
  }

  lemma FirstDigit(digits: string)
    requires digits != "" && AllDigits(digits)
    ensures IsDigit(digits[0])
  {
    assert digits[0] in digits;
  }

  // The digits end at q, where the fraction and the exponent begin.
  lemma TailAccepted(t: string, q: nat, fraction: string, exponent: string)
    requires q <= |t| && FractionOk(fraction) && ExponentOk(exponent)
    requires Matches(t, q, fraction) && q + |fraction| <= |t| && Matches(t, q + |fraction|, exponent)
    requires Delimited(t, q + |fraction| + |exponent|)
    ensures SkipDigits(t, q) == q && SkipFraction(t, q) == At(q + |fraction|)
    ensures q + |fraction| + |exponent| <= |t|
    ensures SkipExponent(t, q + |fraction|) == At(q + |fraction| + |exponent|)
  {
    hide Matches, SkipFraction, SkipExponent;
    var f := q + |fraction|;
    if fraction != "" { MatchesAt(t, q, fraction, 0); }
    if exponent != "" { MatchesAt(t, f, exponent, 0); }
    FractionAccepted(t, q, fraction);
    ExponentAccepted(t, f, exponent);
  }

  lemma LiteralAccepted(t: string, p: nat, word: string)
    requires p <= |t| && IsLiteral(word) && Matches(t, p, word)
    ensures SkipValue(t, p) == At(p + |word|)
  {
    MatchesSlice(t, p, word);
    MatchesAt(t, p, word, 0);
    hide SkipObject, SkipArray, SkipNumber, ReadString;
    assert SkipSpace(t, p) == p;
  }

  // A value starts with a byte that is neither space nor a closing or separating one.
  predicate StartsValue(c: char) { !IsSpace(c) && c != ',' && c != ']' && c != '}' && c != ':' }

  lemma ValueStart(v: Value)
    requires Ok(v, false)
    ensures Write(v) != "" && StartsValue(Write(v)[0])
    ensures Write(v)[0] == '{' <==> v.EmptyObject? || v.ObjectOf?
    ensures Write(v)[0] == '[' <==> v.EmptyArray? || v.Array?
    ensures Write(v)[0] == '"' <==> v.Text?
    ensures Write(v)[0] in ['t', 'f', 'n'] <==> v.Literal?
  {
    if v.Number? {
      assert v.digits[0] in v.digits;
      assert Write(v)[0] == (if v.minus then '-' else v.digits[0]);
    }
  }

  // Spaces in front of a byte that is not one.
  lemma SpaceThen(t: string, p: nat, space: string, rest: string)
    requires p <= |t| && SpaceOk(space, false) && Matches(t, p, space + rest) && rest != "" && !IsSpace(rest[0])
    ensures var q := p + |space|;
            q < |t| && t[q] == rest[0] && SkipSpace(t, p) == q && Matches(t, q, rest)
    ensures Delimited(t, p) || t[p] == rest[0]
  {
    hide Matches;
    MatchesSplit(t, p, space, rest);
    SpaceSkipped(t, p, space);
    MatchesAt(t, p + |space|, rest, 0);
    if space != "" { MatchesAt(t, p, space, 0); assert space[0] in space; }
  }

  /** Every legal value is accepted and consumed exactly to its last byte, if what follows does not
      continue a number. */
  lemma {:induction false} ValueAccepted(t: string, p: nat, v: Value)
    requires p <= |t| && Ok(v, false) && Matches(t, p, Write(v)) && Delimited(t, p + |Write(v)|)
    ensures p + |Write(v)| <= |t| && SkipValue(t, p) == At(p + |Write(v)|)
    decreases v, 1
  {
    hide SkipValue, Matches, IsLiteral, IntegerOk, FractionOk, ExponentOk, SpaceOk, CharsOk, ElementsOk, MembersOk;
    hide WriteNumber, WriteString, WriteElements, WriteMembers, Delimited, SkipNumber, ReadString;
    MatchesSlice(t, p, Write(v));
    match v
    case Literal(word) => LiteralAccepted(t, p, word);
    case Number(minus, digits, fraction, exponent) =>
      NumberAccepted(t, p, minus, digits, fraction, exponent);
      NumberDispatch(t, p);
    case Text(cs) =>
      StringAccepted(t, p, cs);
      StringDispatch(t, p);
    case EmptyArray(space) =>
      BracketAccepted(t, p, ['['], space, [']']);
    case Array(space, es) =>
      ArrayAccepted(t, p, space, es);
    case EmptyObject(space) =>
      BracketAccepted(t, p, ['{'], space, ['}']);
    case ObjectOf(space, ms) =>
      ObjectAccepted(t, p, space, ms);
  }

  lemma {:induction false} ArrayAccepted(t: string, p: nat, space: string, es: Elements)
    requires p <= |t| && SpaceOk(space, false) && ElementsOk(es, false)
    requires Matches(t, p, ['['] + (space + (WriteElements(es) + [']'])))
    ensures SkipValue(t, p) == At(p + 1 + |space| + |WriteElements(es)| + 1)
    decreases es, 3
  {
    hide SkipValue, Matches, SpaceOk, ElementsOk, WriteElements;
    ElementsStart(es);
    BracketAccepted(t, p, ['['], space, WriteElements(es) + [']']);
    ElementsAccepted(t, p + 1 + |space|, es);
  }

  lemma {:induction false} ObjectAccepted(t: string, p: nat, space: string, ms: Members)
    requires p <= |t| && SpaceOk(space, false) && MembersOk(ms, false)
    requires Matches(t, p, ['{'] + (space + (WriteMembers(ms) + ['}'])))
    ensures SkipValue(t, p) == At(p + 1 + |space| + |WriteMembers(ms)| + 1)
    decreases ms, 3
  {
    hide SkipValue, Matches, SpaceOk, MembersOk, WriteMembers;
    MembersStart(ms);
    BracketAccepted(t, p, ['{'], space, WriteMembers(ms) + ['}']);
    MembersAccepted(t, p + 1 + |space|, ms);
  }

  lemma NumberDispatch(t: string, p: nat)
    requires p < |t| && (IsDigit(t[p]) || t[p] == '-')
    ensures SkipValue(t, p) == SkipNumber(t, p)
  {
    hide SkipNumber;
  }

  lemma StringDispatch(t: string, p: nat)
    requires p < |t| && t[p] == '"'
    ensures SkipValue(t, p) == ReadString(t, p).Stop()
  {
    hide ReadString;
  }

  // The opening bracket and the spaces behind it.
  lemma BracketAccepted(t: string, p: nat, open: string, space: string, body: string)
    requires p <= |t| && SpaceOk(space, false) && Matches(t, p, open + (space + body))
    requires (open == ['['] || open == ['{']) && body != "" && !IsSpace(body[0])
    ensures var q := p + 1 + |space|;
            && q < |t| && p + |open + (space + body)| == q + |body| && t[q] == body[0] && Matches(t, q, body)
            && SkipValue(t, p) == if open == ['['] then (if body[0] == ']' then At(q + 1) else SkipElements(t, q))
                                  else (if body[0] == '}' then At(q + 1) else SkipMembers(t, q))
  {
    hide Matches, SkipElements, SkipMembers;
    MatchesSplit(t, p, open, space + body);
    MatchesAt(t, p, open, 0);
    SpaceThen(t, p + 1, space, body);
    assert SkipSpace(t, p) == p;
  }

  lemma ElementsStart(es: Elements)
    requires ElementsOk(es, false)
    ensures WriteElements(es) != "" && StartsValue(WriteElements(es)[0])
  {
    hide Write;
    ValueStart(es.value);
  }

  lemma MembersStart(ms: Members)
    requires MembersOk(ms, false)
    ensures WriteMembers(ms) != "" && StartsValue(WriteMembers(ms)[0]) && WriteMembers(ms)[0] == '"'
  {
    hide Write, WriteChars;
  }

  lemma {:induction false} ElementsAccepted(t: string, p: nat, es: Elements)
    requires p <= |t| && ElementsOk(es, false) && Matches(t, p, WriteElements(es) + [']'])
    ensures p + |WriteElements(es)| + 1 <= |t| && SkipElements(t, p) == At(p + |WriteElements(es)| + 1)
    decreases es, 2
  {
    hide Matches, Write, SkipValue, WriteElements, SkipElements, SkipSpace;
    var w := Write(es.value);
    var e := p + |w|;
    ElementsSplit(es);
    ValueStart(es.value);
    if es.LastElement? {
      MatchesSplit(t, p, w, es.after + [']']);
      SpaceThen(t, e, es.after, [']']);
      MatchesAt(t, p, w, 0);
      ValueAccepted(t, p, es.value);
      ElementsAfter(t, p, e, e + |es.after|);
    } else {
      var more := es.before + (WriteElements(es.rest) + [']']);
      MatchesSplit(t, p, w, es.after + ([','] + more));
      SpaceThen(t, e, es.after, [','] + more);
      MatchesAt(t, p, w, 0);
      ValueAccepted(t, p, es.value);
      var q := e + |es.after|;
      ElementsAfter(t, p, e, q);
      MatchesSplit(t, q, [','], more);
      ElementsStart(es.rest);
      SpaceThen(t, q + 1, es.before, WriteElements(es.rest) + [']']);
      ElementsAccepted(t, q + 1 + |es.before|, es.rest);
    }
  }

  lemma ElementsSplit(es: Elements)
    ensures es.LastElement? ==> WriteElements(es) + [']'] == Write(es.value) + (es.after + [']'])
    ensures es.NextElement? ==>
              WriteElements(es) + [']'] == Write(es.value) + (es.after + ([','] + (es.before + (WriteElements(es.rest) + [']']))))
    ensures es.NextElement? ==>
              |WriteElements(es)| == |Write(es.value)| + |es.after| + 1 + |es.before| + |WriteElements(es.rest)|
    ensures es.LastElement? ==> |WriteElements(es)| == |Write(es.value)| + |es.after|
  {
    hide Write;
  }

  lemma MemberKeyAccepted(t: string, p: nat, m: Member, rest: string, noColon: JsonError)
    requires p <= |t| && MemberOk(m, false) && Matches(t, p, WriteMember(m) + rest)
    ensures var k := p + |WriteMember(m)| - |Write(m.value)|;
            && p < k < |t| && Matches(t, k, Write(m.value) + rest)
            && ReadKey(t, p, noColon) == Got(k, Decode(m.key))
  {
    hide Matches, Write, WriteString, ReadString, Decode, CharOk;
    var key, v := WriteString(m.key), Write(m.value) + rest;
    var afterKey := m.beforeColon + ([':'] + (m.afterColon + v));
    assert WriteMember(m) + rest == key + afterKey;
    MatchesSplit(t, p, key, afterKey);
    StringAccepted(t, p, m.key);
    SpaceThen(t, p + |key|, m.beforeColon, [':'] + (m.afterColon + v));
    var q := p + |key| + |m.beforeColon|;
    MatchesSplit(t, q, [':'], m.afterColon + v);
    ValueStart(m.value);
    SpaceThen(t, q + 1, m.afterColon, v);
  }

  lemma {:induction false} MembersAccepted(t: string, p: nat, ms: Members)
    requires p <= |t| && MembersOk(ms, false) && Matches(t, p, WriteMembers(ms) + ['}'])
    ensures p + |WriteMembers(ms)| + 1 <= |t| && SkipMembers(t, p) == At(p + |WriteMembers(ms)| + 1)
    decreases ms, 2
  {
    hide Matches, Write, WriteMember, SkipValue, WriteMembers, ReadKey, MemberOk, SkipSpace, SkipMembers;
    var m := ms.member;
    ValueOfMember(m);
    var k := p + |WriteMember(m)| - |Write(m.value)|;
    var e := p + |WriteMember(m)|;
    MembersSplit(ms);
    var after := if ms.LastMember? then ['}'] else [','] + (ms.before + (WriteMembers(ms.rest) + ['}']));
    MemberKeyAccepted(t, p, m, ms.after + after, ExpectedColonInObject);
    MatchesSplit(t, k, Write(m.value), ms.after + after);
    SpaceThen(t, e, ms.after, after);
    ValueAccepted(t, k, m.value);
    MembersAfter(t, p, k, e, e + |ms.after|);
    if ms.NextMember? {
      var q := e + |ms.after|;
      MatchesSplit(t, q, [','], ms.before + (WriteMembers(ms.rest) + ['}']));
      MembersStart(ms.rest);
      SpaceThen(t, q + 1, ms.before, WriteMembers(ms.rest) + ['}']);
      MembersAccepted(t, q + 1 + |ms.before|, ms.rest);
    }
  }

  lemma ValueOfMember(m: Member)
    requires MemberOk(m, false)
    ensures Ok(m.value, false) && |Write(m.value)| <= |WriteMember(m)|
  {
    hide Write, Ok, WriteString;
  }

  lemma MembersSplit(ms: Members)
    ensures ms.LastMember? ==> WriteMembers(ms) + ['}'] == WriteMember(ms.member) + (ms.after + ['}'])
    ensures ms.NextMember? ==>
              WriteMembers(ms) + ['}'] == WriteMember(ms.member) + (ms.after + ([','] + (ms.before + (WriteMembers(ms.rest) + ['}']))))
    ensures ms.NextMember? ==>
              |WriteMembers(ms)| == |WriteMember(ms.member)| + |ms.after| + 1 + |ms.before| + |WriteMembers(ms.rest)|
    ensures ms.LastMember? ==> |WriteMembers(ms)| == |WriteMember(ms.member)| + |ms.after|
  {
    hide WriteMember;
  }

  /** A value of RFC 8259 whose \u escapes are ASCII, anywhere in a text, followed by white space, a
      comma, a closing bracket or brace, or the end, is consumed exactly to its last byte. */
  lemma RfcValueAccepted(before: string, v: Value, after: string)
    requires Ok(v, true)
    requires after == "" || IsRfcSpace(after[0]) || after[0] == ',' || after[0] == ']' || after[0] == '}'
    ensures SkipValue(before + Write(v) + after, |before|) == At(|before| + |Write(v)|)
  {
    hide Write, SkipValue, Matches;
    var t, p := before + Write(v) + after, |before|;
    StrictIsOk(v);
    assert t[p..p + |Write(v)|] == Write(v);
    MatchesSlice(t, p, Write(v));
    ValueAccepted(t, p, v);
  }
}
