/** The other direction: whatever consumeJsonValue accepts has a derivation in the grammar, with the
    two liberties the source takes (any isspace byte as white space, leading zeros). */
module JsonSoundness {
  import opened Json
  import opened JsonRoundTrip
  import opened JsonGrammar

  lemma {:induction false} SpaceTaken(t: string, p: nat)
    requires p <= |t|
    ensures SpaceOk(t[p..SkipSpace(t, p)], false)
    decreases |t| - p
  {
    if p < |t| && IsSpace(t[p]) {
      SpaceTaken(t, p + 1);
      assert t[p..SkipSpace(t, p)] == [t[p]] + t[p + 1..SkipSpace(t, p)];
    }
  }

  lemma {:induction false} DigitsTaken(t: string, p: nat)
    requires p <= |t|
    ensures AllDigits(t[p..SkipDigits(t, p)])
    decreases |t| - p
  {
    if p < |t| && IsDigit(t[p]) {
      DigitsTaken(t, p + 1);
      assert t[p..SkipDigits(t, p)] == [t[p]] + t[p + 1..SkipDigits(t, p)];
    }
  }

  // The character at p, as syntax.
  lemma CharTaken(t: string, p: nat) returns (c: StringChar)
    requires p <= |t| && StringRest(t, p).Got? && t[p] != '"'
    ensures CharOk(c)
    ensures var q := p + |WriteChar(c)|;
            && p < q <= |t| && t[p..q] == WriteChar(c)
            && StringRest(t, q).Got? && StringRest(t, q).pos == StringRest(t, p).pos
  {
    if t[p] != '\\' {
      c := Plain(t[p]);
    } else if IsSimpleEscape(t[p + 1]) {
      c := Short(t[p + 1]);
    } else {
      var digits := t[p + 2..p + 6];
      c := Unicode(digits);
      forall i | p + 2 <= i < p + 6 ensures t[i] == digits[i - (p + 2)] {}
      HexBack(t, p + 2, digits, 4);
      assert t[p..p + 6] == [t[p], t[p + 1]] + digits;
    }
  }

  lemma {:induction false} HexBack(t: string, p: nat, digits: string, n: nat)
    requires p + n <= |t| && n <= |digits| && AllHex(t, p, n) && forall i | p <= i < p + n :: t[i] == digits[i - p]
    ensures AllHex(digits, 0, n) && HexNumber(t, p, n) == HexNumber(digits, 0, n)
    decreases n
  {
    assert forall i | 0 <= i < n :: digits[i] == t[p + i];
    if n > 0 { HexBack(t, p, digits, n - 1); }
  }

  lemma {:induction false} CharsTaken(t: string, p: nat) returns (cs: seq<StringChar>)
    requires p <= |t| && StringRest(t, p).Got?
    ensures CharsOk(cs) && t[p..StringRest(t, p).pos] == WriteChars(cs) + ['"']
    decreases |t| - p
  {
    if t[p] == '"' {
      cs := [];
      assert t[p..p + 1] == ['"'];
    } else {
      var c := CharTaken(t, p);
      hide CharOk, WriteChar, StringRest, CharsOk, WriteChars;
      var q := p + |WriteChar(c)|;
      var rest := CharsTaken(t, q);
      cs := [c] + rest;
      CharsJoined(c, rest);
      JoinAt(t, p, q, StringRest(t, q).pos);
    }
  }

  lemma CharsJoined(c: StringChar, rest: seq<StringChar>)
    requires CharOk(c) && CharsOk(rest)
    ensures CharsOk([c] + rest) && WriteChars([c] + rest) + ['"'] == WriteChar(c) + (WriteChars(rest) + ['"'])
  {
    hide CharOk, WriteChar;
    assert ([c] + rest)[1..] == rest;
  }

  lemma JoinAt(t: string, p: nat, q: nat, end: nat)
    requires p <= q <= end <= |t|
    ensures t[p..end] == t[p..q] + t[q..end]
  {
  }

  lemma StringTaken(t: string, p: nat) returns (cs: seq<StringChar>)
    requires p <= |t| && ReadString(t, p).Got?
    ensures CharsOk(cs) && t[p..ReadString(t, p).pos] == WriteString(cs)
  {
    cs := CharsTaken(t, p + 1);
    hide StringRest, WriteChars;
    assert t[p..ReadString(t, p).pos] == [t[p]] + t[p + 1..ReadString(t, p).pos];
  }

  lemma FractionTaken(t: string, p: nat)
    requires p <= |t| && SkipFraction(t, p).At?
    ensures FractionOk(t[p..SkipFraction(t, p).pos])
  {
    var q := SkipFraction(t, p).pos;
    if q > p {
      DigitsTaken(t, p + 1);
      assert t[p..q][1..] == t[p + 1..q];
    }
  }

  lemma ExponentTaken(t: string, p: nat)
    requires p <= |t| && SkipExponent(t, p).At?
    ensures ExponentOk(t[p..SkipExponent(t, p).pos])
  {
    var q := SkipExponent(t, p).pos;
    if q > p {
      var start := SkipOne(t, p + 1, '+', '-');
      DigitsTaken(t, start);
      assert t[p..q][start - p..] == t[start..q];
    }
  }

  lemma NumberTaken(t: string, p: nat) returns (v: Value)
    requires p <= |t| && SkipNumber(t, p).At?
    ensures v.Number? && Ok(v, false) && t[p..SkipNumber(t, p).pos] == Write(v)
  {
    var start := SkipOne(t, p, '-', '-');
    var q := SkipDigits(t, start);
    var f := SkipFraction(t, q).pos;
    var e := SkipExponent(t, f).pos;
    v := Number(start > p, t[start..q], t[q..f], t[f..e]);
    DigitsTaken(t, start);
    FractionTaken(t, q);
    ExponentTaken(t, f);
    hide SkipDigits, SkipFraction, SkipExponent, FractionOk, ExponentOk;
    CutNumber(t, p, start, q, f, e);
    assert t[p..start] == if start > p then ['-'] else [];
  }

  lemma CutNumber(t: string, p: nat, start: nat, q: nat, f: nat, e: nat)
    requires p <= start <= q <= f <= e <= |t|
    ensures t[p..e] == t[p..start] + (t[start..q] + (t[q..f] + t[f..e]))
  {
  }

  lemma LiteralTaken(t: string, p: nat, word: string) returns (v: Value)
    requires p <= |t| && IsLiteral(word) && SkipLiteral(t, p, word).At?
    ensures Ok(v, false) && t[p..SkipLiteral(t, p, word).pos] == Write(v)
  {
    v := Literal(word);
  }

  /** What is accepted from p on is white space and one value of the grammar. */
  lemma {:induction false} ValueTaken(t: string, p: nat) returns (v: Value)
    requires p <= |t| && SkipValue(t, p).At?
    ensures Ok(v, false) && SkipSpace(t, p) <= SkipValue(t, p).pos
    ensures t[SkipSpace(t, p)..SkipValue(t, p).pos] == Write(v)
    decreases |t| - p, 2
  {
    var q := SkipSpace(t, p);
    if t[q] == '"' {
      var cs := StringTaken(t, q);
      v := Text(cs);
    } else if t[q] == '{' {
      v := ObjectTaken(t, q);
    } else if t[q] == '[' {
      v := ArrayTaken(t, q);
    } else if t[q] == 't' {
      v := LiteralTaken(t, q, "true");
    } else if t[q] == 'f' {
      v := LiteralTaken(t, q, "false");
    } else if t[q] == 'n' {
      v := LiteralTaken(t, q, "null");
    } else {
      v := NumberTaken(t, q);
    }
  }

  lemma {:induction false} ArrayTaken(t: string, p: nat) returns (v: Value)
    requires p < |t| && t[p] == '[' && SkipArray(t, p).At?
    ensures Ok(v, false) && t[p..SkipArray(t, p).pos] == Write(v)
    decreases |t| - p, 1
  {
    hide SkipElements, SkipSpace, WriteElements;
    var q, e := SkipSpace(t, p + 1), SkipArray(t, p).pos;
    var space := t[p + 1..q];
    SpaceTaken(t, p + 1);
    if t[q] == ']' {
      v := EmptyArray(space);
      CutLast(t, p, p + 1, q);
      assert t[p..p + 1] == ['['];
    } else {
      SkipTwice(t, p + 1);
      var es := ElementsTaken(t, q);
      v := Array(space, es);
      CutFirst(t, p, q, e);
    }
  }

  lemma Cut(t: string, p: nat, e: nat, q: nat, r: nat, end: nat)
    requires p <= e <= q < r <= end <= |t|
    ensures t[p..end] == t[p..e] + (t[e..q] + ([t[q]] + (t[q + 1..r] + t[r..end])))
  {
  }

  lemma CutFirst(t: string, p: nat, q: nat, end: nat)
    requires p < q <= end <= |t|
    ensures t[p..end] == [t[p]] + (t[p + 1..q] + t[q..end])
  {
  }

  lemma CutLast(t: string, p: nat, e: nat, q: nat)
    requires p <= e <= q < |t|
    ensures t[p..q + 1] == t[p..e] + (t[e..q] + [t[q]])
  {
  }

  lemma {:induction false} ElementsTaken(t: string, p: nat) returns (es: Elements)
    requires p <= |t| && SkipElements(t, p).At? && SkipSpace(t, p) == p
    ensures ElementsOk(es, false) && t[p..SkipElements(t, p).pos] == WriteElements(es) + [']']
    decreases |t| - p, 3
  {
    hide SkipValue, SkipSpace, Write, Ok, WriteElements, SpaceOk, SkipElements;
    var e, q := ElementsBegin(t, p);
    var v := ValueTaken(t, p);
    var end := SkipElements(t, p).pos;
    ElementsAfter(t, p, e, q);
    SpaceTaken(t, e);
    if t[q] == ']' {
      es := LastElement(v, t[e..q]);
      CutLast(t, p, e, q);
      ElementsSplit(es);
    } else {
      var r := SkipSpace(t, q + 1);
      SpaceTaken(t, q + 1);
      SkipTwice(t, q + 1);
      var rest := ElementsTaken(t, r);
      es := NextElement(v, t[e..q], t[q + 1..r], rest);
      Cut(t, p, e, q, r, end);
      ElementsSplit(es);
    }
  }

  lemma {:induction false} SkipTwice(t: string, p: nat)
    requires p <= |t|
    ensures SkipSpace(t, SkipSpace(t, p)) == SkipSpace(t, p)
  {
  }

  lemma {:induction false} ObjectTaken(t: string, p: nat) returns (v: Value)
    requires p < |t| && t[p] == '{' && SkipObject(t, p).At?
    ensures Ok(v, false) && t[p..SkipObject(t, p).pos] == Write(v)
    decreases |t| - p, 1
  {
    hide SkipMembers, SkipSpace, WriteMembers;
    var q, e := SkipSpace(t, p + 1), SkipObject(t, p).pos;
    var space := t[p + 1..q];
    SpaceTaken(t, p + 1);
    if t[q] == '}' {
      v := EmptyObject(space);
      CutLast(t, p, p + 1, q);
      assert t[p..p + 1] == ['{'];
    } else {
      var ms := MembersTaken(t, q);
      v := ObjectOf(space, ms);
      CutFirst(t, p, q, e);
    }
  }

  lemma {:induction false} MemberTaken(t: string, p: nat) returns (m: Member)
    requires p <= |t| && ReadKey(t, p, ExpectedColonInObject).Got?
    requires SkipValue(t, ReadKey(t, p, ExpectedColonInObject).pos).At?
    ensures MemberOk(m, false)
    ensures t[p..SkipValue(t, ReadKey(t, p, ExpectedColonInObject).pos).pos] == WriteMember(m)
    decreases |t| - p, 0
  {
    hide ReadString, SkipSpace, SkipValue, Write, Ok, WriteString, SpaceOk, CharsOk, WriteMember, ReadKey;
    var e, q, k := KeyParts(t, p);
    var key := StringTaken(t, p);
    var v := ValueTaken(t, k);
    var end := SkipValue(t, k).pos;
    SpaceTaken(t, e);
    SpaceTaken(t, q + 1);
    SkipTwice(t, q + 1);
    m := Member(key, t[e..q], t[q + 1..k], v);
    MemberWritten(t, p, e, q, k, end, m);
  }

  lemma MemberWritten(t: string, p: nat, e: nat, q: nat, k: nat, end: nat, m: Member)
    requires p <= e <= q < k <= end <= |t| && t[q] == ':'
    requires t[p..e] == WriteString(m.key) && t[k..end] == Write(m.value)
    requires m.beforeColon == t[e..q] && m.afterColon == t[q + 1..k]
    ensures t[p..end] == WriteMember(m)
  {
    hide WriteString, Write;
    Cut(t, p, e, q, k, end);
  }

  // The key ends at e, its colon is at q and its value starts at k.
  lemma KeyParts(t: string, p: nat) returns (e: nat, q: nat, k: nat)
    requires p <= |t| && ReadKey(t, p, ExpectedColonInObject).Got?
    ensures ReadString(t, p).Got? && ReadString(t, p).pos == e && ReadKey(t, p, ExpectedColonInObject).pos == k
    ensures p < e <= q < |t| && q == SkipSpace(t, e) && t[q] == ':' && k == SkipSpace(t, q + 1) && q < k <= |t|
  {
    hide ReadString, SkipSpace;
    e := ReadString(t, p).pos;
    q := SkipSpace(t, e);
    k := SkipSpace(t, q + 1);
  }

  lemma {:induction false} MembersTaken(t: string, p: nat) returns (ms: Members)
    requires p <= |t| && SkipMembers(t, p).At?
    ensures MembersOk(ms, false) && t[p..SkipMembers(t, p).pos] == WriteMembers(ms) + ['}']
    decreases |t| - p, 3
  {
    hide ReadKey, SkipValue, SkipSpace, WriteMember, MemberOk, WriteMembers, SpaceOk, SkipMembers;
    var k, e, q := MembersBegin(t, p);
    var m := MemberTaken(t, p);
    var end := SkipMembers(t, p).pos;
    SpaceTaken(t, e);
    if t[q] == '}' {
      ms := LastMember(m, t[e..q]);
      MembersAfter(t, p, k, e, q);
      CutLast(t, p, e, q);
      MembersSplit(ms);
    } else {
      var r := SkipSpace(t, q + 1);
      MembersAfter(t, p, k, e, q);
      SpaceTaken(t, q + 1);
      var rest := MembersTaken(t, r);
      ms := NextMember(m, t[e..q], t[q + 1..r], rest);
      Cut(t, p, e, q, r, end);
      assert t[r..end] == WriteMembers(rest) + ['}'] && t[p..e] == WriteMember(m);
      MembersSplit(ms);
    }
  }

  ghost predicate Derives(space: string, v: Value, text: string) {
    SpaceOk(space, false) && Ok(v, false) && text == space + Write(v)
  }

  /** Where nothing continues a number, consumeJsonValue stops at e exactly when the text up to e is
      white space and one value of the grammar. */
  lemma AcceptedLanguage(t: string, p: nat, e: nat)
    requires p <= e <= |t| && Delimited(t, e)
    ensures SkipValue(t, p) == At(e) <==> exists space, v :: Derives(space, v, t[p..e])
  {
    hide *;
    if SkipValue(t, p) == At(e) {
      var v := ValueTaken(t, p);
      var q := SkipSpace(t, p);
      SpaceTaken(t, p);
      assert t[p..e] == t[p..q] + t[q..e];
      assert Derives(t[p..q], v, t[p..e]) by { DerivesIs(t[p..q], v, t[p..e]); }
    }
    if space, v :| Derives(space, v, t[p..e]) {
      DerivesIs(space, v, t[p..e]);
      ValueStart(v);
      MatchesSlice(t, p, space + Write(v));
      StartIsNoSpace(Write(v)[0]);
      SpaceThen(t, p, space, Write(v));
      ValueAccepted(t, p + |space|, v);
      SkipFromSpace(t, p, p + |space|);
    }
  }

  lemma DerivesIs(space: string, v: Value, text: string)
    ensures Derives(space, v, text) <==> SpaceOk(space, false) && Ok(v, false) && text == space + Write(v)
  {
  }

  lemma StartIsNoSpace(c: char)
    requires StartsValue(c)
    ensures !IsSpace(c)
  {
  }

  lemma SkipFromSpace(t: string, p: nat, q: nat)
    requires p <= q <= |t| && SkipSpace(t, p) == q
    ensures SkipValue(t, p) == SkipValue(t, q)
  {
    SkipTwice(t, p);
    hide SkipObject, SkipArray, SkipNumber, ReadString, SkipLiteral, SkipSpace;
  }

  /** Both liberties are real: an integer may start with zeros, and a vertical tab is white space. */
  lemma LibertiesTaken(zeros: string)
    requires zeros != "" && AllDigits(zeros)
    ensures SkipValue(['\U{000B}'] + zeros, 0) == At(1 + |zeros|)
    ensures |zeros| > 1 && zeros[0] == '0' ==> !Ok(Number(false, zeros, "", ""), true)
  {
    hide *;
    var v := Number(false, zeros, "", "");
    var t := ['\U{000B}'] + zeros;
    ZerosWritten(zeros);
    assert t[0..|t|] == ['\U{000B}'] + Write(v);
    DerivesIs(['\U{000B}'], v, t[0..|t|]);
    EndDelimits(t);
    AcceptedLanguage(t, 0, |t|);
  }

  lemma ZerosWritten(zeros: string)
    requires zeros != "" && AllDigits(zeros)
    ensures var v := Number(false, zeros, "", "");
            Write(v) == zeros && Ok(v, false) && (|zeros| > 1 && zeros[0] == '0' ==> !Ok(v, true))
    ensures SpaceOk(['\U{000B}'], false)
  {
  }

  lemma EndDelimits(t: string)
    ensures Delimited(t, |t|)
  {
  }
}
