/** The texts parseJsonObject accepts, and the map it makes of each (common/Json.cc:377-485). */
module JsonObjects {
  import opened Json
  import opened JsonRoundTrip
  import opened JsonGrammar
  import opened JsonSoundness

  // What is stored of a value: a string decoded, anything else as it is written.
  function StoredText(v: Value): string
    requires Ok(v, false)
  {
    if v.Text? then Decode(v.chars) else Write(v)
  }

  function WithMember(fields: JsonObject, m: Member): JsonObject
    requires MemberOk(m, false)
  {
    fields[Decode(m.key) := StoredText(m.value)]
  }

  // The members from left to right, so the last of equal keys wins.
  function WithMembers(fields: JsonObject, ms: Members): JsonObject
    requires MembersOk(ms, false)
    decreases ms
  {
    if ms.LastMember? then WithMember(fields, ms.member) else WithMembers(WithMember(fields, ms.member), ms.rest)
  }

  predicate IsObject(v: Value) { v.EmptyObject? || v.ObjectOf? }

  function MapOf(v: Value): JsonObject
    requires Ok(v, false) && IsObject(v)
  {
    if v.EmptyObject? then map[] else WithMembers(map[], v.members)
  }

  ghost predicate Spells(text: string, lead: string, v: Value, trail: string, fields: JsonObject) {
    && Ok(v, false) && IsObject(v) && SpaceOk(lead, false) && SpaceOk(trail, false)
    && text == lead + (Write(v) + trail) && fields == MapOf(v)
  }

  // ---------------------------------------------------------------------------------------------
  // What is an object is read as its map
  // ---------------------------------------------------------------------------------------------

  lemma StoredValueRead(t: string, k: nat, v: Value)
    requires k <= |t| && Ok(v, false) && Matches(t, k, Write(v)) && Delimited(t, k + |Write(v)|)
    ensures k + |Write(v)| <= |t| && ReadValue(t, k) == Got(k + |Write(v)|, StoredText(v))
  {
    hide Matches, SkipValue, SkipNumber, ReadString, Ok, Decode, SkipSpace, Write;
    ValueStart(v);
    MatchesSlice(t, k, Write(v));
    MatchesAt(t, k, Write(v), 0);
    if v.Text? {
      TextRead(t, k, v);
    } else if v.Number? {
      NumberRead(t, k, v);
    } else {
      ValueAccepted(t, k, v);
      assert StartsRaw(t[k]);
    }
  }

  lemma TextRead(t: string, k: nat, v: Value)
    requires k <= |t| && v.Text? && Ok(v, false) && Matches(t, k, Write(v))
    ensures ReadString(t, k) == Got(k + |Write(v)|, Decode(v.chars))
  {
    hide Matches, ReadString, Decode;
    StringAccepted(t, k, v.chars);
  }

  lemma NumberRead(t: string, k: nat, v: Value)
    requires k <= |t| && v.Number? && Ok(v, false) && Matches(t, k, Write(v)) && Delimited(t, k + |Write(v)|)
    ensures k < |t| && t[k] != '"' && !StartsRaw(t[k]) && SkipNumber(t, k) == At(k + |Write(v)|)
  {
    hide Matches, SkipNumber, Delimited, IntegerOk, FractionOk, ExponentOk;
    NumberAccepted(t, k, v.minus, v.digits, v.fraction, v.exponent);
  }

  lemma {:induction false} MembersRead(t: string, p: nat, ms: Members, fields: JsonObject)
    requires p <= |t| && MembersOk(ms, false) && Matches(t, p, WriteMembers(ms) + ['}'])
    ensures var e := p + |WriteMembers(ms)| + 1;
            e <= |t| && ReadMembers(t, p, fields) == Ended(t, e, WithMembers(fields, ms))
    decreases ms
  {
    hide *;
    var m := ms.member;
    MembersSplit(ms);
    MemberIsOk(ms);
    WithMembersUnfolds(fields, ms);
    var after := if ms.LastMember? then ['}'] else [','] + (ms.before + (WriteMembers(ms.rest) + ['}']));
    var e, q := MemberRead(t, p, m, ms.after, after, fields);
    OneMemberStored(t, p, e, q, fields, Decode(m.key), StoredText(m.value));
    if ms.NextMember? {
      MatchesSplit(t, q, [','], ms.before + (WriteMembers(ms.rest) + ['}']));
      MembersStart(ms.rest);
      QuoteIsNoSpace();
      SpaceThen(t, q + 1, ms.before, WriteMembers(ms.rest) + ['}']);
      MembersRead(t, q + 1 + |ms.before|, ms.rest, WithMember(fields, m));
    }
  }

  lemma WithMembersUnfolds(fields: JsonObject, ms: Members)
    requires MembersOk(ms, false) && MemberOk(ms.member, false)
    ensures CharsOk(ms.member.key) && Ok(ms.member.value, false)
    ensures WithMember(fields, ms.member) == fields[Decode(ms.member.key) := StoredText(ms.member.value)]
    ensures ms.LastMember? ==> WithMembers(fields, ms) == WithMember(fields, ms.member)
    ensures ms.NextMember? ==>
              MembersOk(ms.rest, false) && WithMembers(fields, ms) == WithMembers(WithMember(fields, ms.member), ms.rest)
  {
    hide Decode, StoredText, MemberOk;
    OkOfMember(ms.member);
  }

  lemma OkOfMember(m: Member)
    requires MemberOk(m, false)
    ensures CharsOk(m.key) && Ok(m.value, false)
  {
    hide Ok, CharOk;
  }

  // ReadMembers, one turn.
  lemma OneMemberStored(t: string, p: nat, e: nat, q: nat, fields: JsonObject, key: string, text: string)
    requires p < |t| && e <= |t| && q < |t| && SkipSpace(t, e) == q && (t[q] == '}' || t[q] == ',')
    requires var k := ReadKey(t, p, ExpectedColon); k.Got? && k.text == key && ReadValue(t, k.pos) == Got(e, text)
    ensures t[q] == '}' ==> ReadMembers(t, p, fields) == Ended(t, q + 1, fields[key := text])
    ensures t[q] == ',' ==> ReadMembers(t, p, fields) == ReadMembers(t, SkipSpace(t, q + 1), fields[key := text])
  {
    hide ReadKey, ReadValue, SkipSpace, Ended;
  }

  lemma QuoteIsNoSpace()
    ensures !IsSpace('"') && !IsSpace('}') && !IsSpace(',')
  {
  }

  lemma MemberIsOk(ms: Members)
    requires MembersOk(ms, false)
    ensures MemberOk(ms.member, false) && SpaceOk(ms.after, false)
    ensures ms.NextMember? ==> SpaceOk(ms.before, false) && MembersOk(ms.rest, false)
  {
  }

  // A member, and the space behind it, up to a comma or the closing brace.
  lemma MemberRead(t: string, p: nat, m: Member, space: string, after: string, fields: JsonObject) returns (e: nat, q: nat)
    requires p <= |t| && MemberOk(m, false) && SpaceOk(space, false)
    requires after != "" && (after[0] == ',' || after[0] == '}')
    requires Matches(t, p, WriteMember(m) + (space + after))
    ensures e == p + |WriteMember(m)| && q == e + |space| && q < |t| && t[q] == after[0] && Matches(t, q, after)
    ensures p < |t|
    ensures var key := ReadKey(t, p, ExpectedColon);
            && key.Got? && key.text == Decode(m.key)
            && ReadValue(t, key.pos) == Got(e, StoredText(m.value)) && SkipSpace(t, e) == q
  {
    hide *;
    ValueOfMember(m);
    OkOfMember(m);
    QuoteIsNoSpace();
    e := p + |WriteMember(m)|;
    q := e + |space|;
    var k := p + |WriteMember(m)| - |Write(m.value)|;
    MemberKeyAccepted(t, p, m, space + after, ExpectedColon);
    MatchesSplit(t, k, Write(m.value), space + after);
    SpaceThen(t, e, space, after);
    DelimitedBy(t, e);
    StoredValueRead(t, k, m.value);
  }

  lemma DelimitedBy(t: string, e: nat)
    requires e < |t| && (Delimited(t, e) || t[e] == ',' || t[e] == '}')
    ensures Delimited(t, e)
  {
  }

  lemma SpelledIsParsed(text: string, lead: string, v: Value, trail: string, fields: JsonObject)
    requires Spells(text, lead, v, trail, fields)
    ensures Parse(text) == Object(fields)
  {
    hide *;
    SpellsUnfolds(text, lead, v, trail, fields);
    WholeMatches(text);
    SpelledObject(text, |lead|, lead, v, trail);
    ObjectIsRead(text, |lead|, v);
    ParseIs(text, |lead|, v, fields);
  }

  lemma WholeMatches(text: string)
    ensures Matches(text, 0, text)
  {
    assert text[0..0 + |text|] == text;
    MatchesSlice(text, 0, text);
  }

  // The object starts behind the leading spaces, and behind it only spaces follow.
  lemma SpelledObject(text: string, p: nat, lead: string, v: Value, trail: string)
    requires Ok(v, false) && IsObject(v) && SpaceOk(lead, false) && SpaceOk(trail, false)
    requires text == lead + (Write(v) + trail) && Matches(text, 0, text) && p == |lead|
    ensures p < |text| && SkipSpace(text, 0) == p && Matches(text, p, Write(v))
    ensures p + |Write(v)| <= |text| && SkipSpace(text, p + |Write(v)|) == |text|
  {
    hide *;
    BraceIsNoSpace(v);
    SpaceThen(text, 0, lead, Write(v) + trail);
    MatchesSplit(text, p, Write(v), trail);
    SpaceToEnd(text, p + |Write(v)|, trail);
  }

  lemma SpellsUnfolds(text: string, lead: string, v: Value, trail: string, fields: JsonObject)
    requires Spells(text, lead, v, trail, fields)
    ensures Ok(v, false) && IsObject(v) && SpaceOk(lead, false) && SpaceOk(trail, false)
    ensures text == lead + (Write(v) + trail) && fields == MapOf(v)
  {
    hide Ok, Write, MapOf, SpaceOk;
  }

  lemma ParseIs(t: string, p: nat, v: Value, fields: JsonObject)
    requires Ok(v, false) && IsObject(v) && fields == MapOf(v)
    requires p == SkipSpace(t, 0) && p < |t| && t[p] == '{' && p + |Write(v)| <= |t|
    requires SkipSpace(t, p + |Write(v)|) == |t|
    requires var e, q := p + |Write(v)|, SkipSpace(t, p + 1);
             if q < |t| && t[q] == '}' then v.EmptyObject? && e == q + 1
             else v.ObjectOf? && ReadMembers(t, q, map[]) == Ended(t, e, MapOf(v))
    ensures Parse(t) == Object(fields)
  {
    hide SkipSpace, ReadMembers, Write, WithMembers, Ok;
  }

  lemma BraceIsNoSpace(v: Value)
    requires Ok(v, false) && IsObject(v)
    ensures Write(v) != "" && Write(v)[0] == '{' && !IsSpace('{')
  {
    ValueStart(v);
  }

  lemma SpaceToEnd(t: string, e: nat, trail: string)
    requires e + |trail| == |t| && Matches(t, e, trail) && SpaceOk(trail, false)
    ensures SkipSpace(t, e) == |t|
  {
    SpaceSkipped(t, e, trail);
  }

  lemma ObjectIsRead(t: string, p: nat, v: Value)
    requires Ok(v, false) && IsObject(v) && p <= |t| && Matches(t, p, Write(v))
    ensures var e := p + |Write(v)|;
            && p < |t| && t[p] == '{' && e <= |t|
            && var q := SkipSpace(t, p + 1);
               if q < |t| && t[q] == '}' then v.EmptyObject? && e == q + 1
               else v.ObjectOf? && ReadMembers(t, q, map[]) == Ended(t, e, MapOf(v))
  {
    hide Matches, SkipSpace, ReadMembers, WriteMembers, MembersOk, SpaceOk, WithMembers;
    var body := if v.EmptyObject? then ['}'] else WriteMembers(v.members) + ['}'];
    assert Write(v) == ['{'] + (v.space + body);
    MatchesSplit(t, p, ['{'], v.space + body);
    MatchesAt(t, p, ['{'], 0);
    QuoteIsNoSpace();
    if v.ObjectOf? { MembersStart(v.members); }
    SpaceThen(t, p + 1, v.space, body);
    if v.ObjectOf? { MembersRead(t, p + 1 + |v.space|, v.members, map[]); }
  }

  // ---------------------------------------------------------------------------------------------
  // What is read is an object
  // ---------------------------------------------------------------------------------------------

  lemma KeyWhateverTheError(t: string, p: nat, a: JsonError, b: JsonError)
    requires p <= |t| && ReadKey(t, p, a).Got?
    ensures ReadKey(t, p, b) == ReadKey(t, p, a)
  {
    hide ReadString, SkipSpace;
  }

  // Behind a colon, both readers of values stop at the same place.
  lemma ReadValueStops(t: string, k: nat)
    requires k <= |t| && SkipSpace(t, k) == k && ReadValue(t, k).Got?
    ensures SkipValue(t, k) == At(ReadValue(t, k).pos)
  {
    hide SkipSpace, SkipObject, SkipArray, SkipNumber, ReadString, SkipLiteral;
    if k == |t| { NoNumberAtEnd(t); }
  }

  lemma NoNumberAtEnd(t: string)
    ensures SkipNumber(t, |t|).Bad?
  {
  }

  lemma KeyEndsAtValue(t: string, p: nat, noColon: JsonError)
    requires p <= |t| && ReadKey(t, p, noColon).Got?
    ensures var k := ReadKey(t, p, noColon).pos; SkipSpace(t, k) == k
  {
    var key := ReadString(t, p);
    var q := SkipSpace(t, key.pos);
    SkipTwice(t, q + 1);
    hide ReadString, SkipSpace;
  }

  lemma {:induction false} MembersSkipped(t: string, p: nat, fields: JsonObject) returns (e: nat)
    requires p <= |t| && ReadMembers(t, p, fields).Object?
    ensures e <= |t| && SkipMembers(t, p) == At(e) && SkipSpace(t, e) == |t|
    decreases |t| - p
  {
    hide ReadKey, ReadValue, SkipValue, SkipSpace;
    var key := ReadKey(t, p, ExpectedColon);
    KeyWhateverTheError(t, p, ExpectedColon, ExpectedColonInObject);
    KeyEndsAtValue(t, p, ExpectedColon);
    ReadValueStops(t, key.pos);
    var value := ReadValue(t, key.pos);
    var q := SkipSpace(t, value.pos);
    if t[q] == '}' {
      e := q + 1;
    } else {
      e := MembersSkipped(t, SkipSpace(t, q + 1), fields[key.text := value.text]);
    }
  }

  lemma ObjectSkipped(t: string) returns (p: nat, e: nat)
    requires Parse(t).Object?
    ensures p == SkipSpace(t, 0) && p < |t| && t[p] == '{'
    ensures p <= e <= |t| && SkipValue(t, p) == At(e) && SkipSpace(t, e) == |t|
  {
    p := SkipSpace(t, 0);
    SkipTwice(t, 0);
    hide ReadMembers, SkipMembers, SkipSpace, SkipNumber, SkipArray, ReadString, SkipLiteral;
    var q := SkipSpace(t, p + 1);
    if q < |t| && t[q] == '}' {
      e := q + 1;
    } else {
      e := MembersSkipped(t, q, map[]);
    }
  }

  lemma ParsedIsSpelled(text: string) returns (lead: string, v: Value, trail: string)
    requires Parse(text).Object?
    ensures Ok(v, false) && IsObject(v) && SpaceOk(lead, false) && SpaceOk(trail, false)
    ensures text == lead + (Write(v) + trail)
  {
    hide *;
    var p, e := ObjectSkipped(text);
    v := ValueTaken(text, p);
    SkipTwice(text, 0);
    SpaceTaken(text, 0);
    SpaceTaken(text, e);
    ValueStart(v);
    lead, trail := text[0..p], text[e..|text|];
    assert text[p..e][0] == text[p];
    BraceStartsObject(v);
    assert text == text[0..p] + (text[p..e] + text[e..|text|]);
  }

  lemma BraceStartsObject(v: Value)
    requires Ok(v, false) && Write(v) != "" && Write(v)[0] == '{'
    ensures IsObject(v)
  {
    ValueStart(v);
  }

  /** parseJsonObject succeeds exactly on the texts that are one object of the grammar, with white space
      around it, and makes of each the map of its members, the last of equal keys winning. */
  lemma ParsedLanguage(text: string, fields: JsonObject)
    ensures Parse(text) == Object(fields) <==> exists lead, v, trail :: Spells(text, lead, v, trail, fields)
  {
    hide *;
    if Parse(text) == Object(fields) {
      var lead, v, trail := ParsedIsSpelled(text);
      SpellsItsMap(text, lead, v, trail);
      SpelledIsParsed(text, lead, v, trail, MapOf(v));
      assert Spells(text, lead, v, trail, fields);
    }
    if lead, v, trail :| Spells(text, lead, v, trail, fields) {
      SpelledIsParsed(text, lead, v, trail, fields);
    }
  }

  lemma SpellsItsMap(text: string, lead: string, v: Value, trail: string)
    requires Ok(v, false) && IsObject(v) && SpaceOk(lead, false) && SpaceOk(trail, false)
    requires text == lead + (Write(v) + trail)
    ensures Spells(text, lead, v, trail, MapOf(v))
  {
  }
}
