/** Names and the order in which std::map and std::set of std::string are walked.  A `char` here is
    one byte of a std::string. */
module Names {
  predicate IsAlnum(c: char) {
    '0' <= c <= '9' || 'A' <= c <= 'Z' || 'a' <= c <= 'z'
  }

  predicate IsNameChar(c: char) {
    IsAlnum(c) || c == '_' || c == '-' || c == '.'
  }

  predicate IsValidName(name: string) {
    1 <= |name| <= 32 && forall c | c in name :: IsNameChar(c)
  }

  predicate IsValidCallId(id: string) {
    1 <= |id| <= 128 && forall c | c in id :: IsNameChar(c)
  }

  /** Names are of letters, digits and three other characters, so they need no escape in JSON and hold no
      newline; a call id may be longer. */
  lemma NameLaw(name: string)
    ensures var letters := forall c | c in name :: || c in "ABCDEFGHIJKLMNOPQRSTUVWXYZ" || c in "abcdefghijklmnopqrstuvwxyz"
                                                   || c in "0123456789" || c in "_-.";
            && (IsValidName(name) <==> 1 <= |name| <= 32 && letters)
            && (IsValidCallId(name) <==> 1 <= |name| <= 128 && letters)
  {
    forall c: char ensures IsNameChar(c) <==> || c in "ABCDEFGHIJKLMNOPQRSTUVWXYZ" || c in "abcdefghijklmnopqrstuvwxyz"
                                              || c in "0123456789" || c in "_-."
    {
      UpperLaw(c);
      LowerLaw(c);
      OtherLaw(c);
    }
  }

  lemma UpperLaw(c: char)
    ensures 'A' <= c <= 'Z' <==> c in "ABCDEFGHIJKLMNOPQRSTUVWXYZ"
  {
  }

  lemma LowerLaw(c: char)
    ensures 'a' <= c <= 'z' <==> c in "abcdefghijklmnopqrstuvwxyz"
  {
  }

  lemma OtherLaw(c: char)
    ensures '0' <= c <= '9' <==> c in "0123456789"
    ensures c == '_' || c == '-' || c == '.' <==> c in "_-."
  {
  }

  predicate Less(a: string, b: string) {
    b != [] && (a == [] || a[0] < b[0] || (a[0] == b[0] && Less(a[1..], b[1..])))
  }

  lemma {:induction false} LessIsTotal(a: string, b: string)
    ensures a == b || Less(a, b) || Less(b, a)
    ensures !(Less(a, b) && Less(b, a)) && !Less(a, a)
  {
    if a != [] && b != [] && a[0] == b[0] {
      LessIsTotal(a[1..], b[1..]);
      assert a == [a[0]] + a[1..] && b == [b[0]] + b[1..];
    }
    if a != [] { LessIsTotal(a[1..], a[1..]); }
  }

  lemma {:induction false} LessIsTransitive(a: string, b: string, c: string)
    requires Less(a, b) && Less(b, c)
    ensures Less(a, c)
  {
    if a != [] && a[0] == b[0] && b[0] == c[0] {
      LessIsTransitive(a[1..], b[1..], c[1..]);
    }
  }

  /** The order is that of bytes: at the first place where the two differ, or where only the first one ends. */
  lemma {:induction false} LessLaw(a: string, b: string)
    ensures Less(a, b) <==>
            exists n: nat :: n <= |a| && n < |b| && a[..n] == b[..n] && (n == |a| || a[n] < b[n])
    decreases |a|
  {
    forall n: nat | 0 < n <= |a| && n < |b| && a[..n] == b[..n] ensures a[0] == b[0] { assert a[..n][0] == b[..n][0]; }
    if a != [] && b != [] && a[0] == b[0] {
      LessLaw(a[1..], b[1..]);
      if n: nat :| n <= |a[1..]| && n < |b[1..]| && a[1..][..n] == b[1..][..n] && (n == |a[1..]| || a[1..][n] < b[1..][n]) {
        Longer(a, b, n, n + 1);
      }
      if n: nat :| n <= |a| && n < |b| && a[..n] == b[..n] && (n == |a| || a[n] < b[n]) {
        Shorter(a, b, n - 1, n);
      }
    } else if b != [] && (a == [] || a[0] < b[0]) {
      assert a[..0] == b[..0];
    }
  }

  lemma Longer(a: string, b: string, n: nat, m: nat)
    requires a != [] && b != [] && a[0] == b[0] && m == n + 1
    requires n <= |a[1..]| && n < |b[1..]| && a[1..][..n] == b[1..][..n]
    ensures m <= |a| && m < |b| && a[..m] == b[..m]
  {
    assert a[..m] == [a[0]] + a[1..][..n] && b[..m] == [b[0]] + b[1..][..n];
  }

  lemma Shorter(a: string, b: string, n: int, m: nat)
    requires a != [] && b != [] && a[0] == b[0] && n == m - 1 && m <= |a| && m < |b| && a[..m] == b[..m]
    requires m == |a| || a[m] < b[m]
    ensures n >= 0 && n <= |a[1..]| && n < |b[1..]| && a[1..][..n] == b[1..][..n]
  {
    assert m > 0;
    assert a[1..][..n] == a[..m][1..] && b[1..][..n] == b[..m][1..];
  }

  predicate IsLeast(m: string, s: set<string>) {
    m in s && forall x | x in s :: x == m || Less(m, x)
  }

  lemma {:induction false} LeastExists(s: set<string>)
    requires s != {}
    ensures exists m :: IsLeast(m, s)
  {
    var x :| x in s;
    if s == {x} {
      assert IsLeast(x, s);
    } else {
      var rest := s - {x};
      LeastExists(rest);
      var m :| IsLeast(m, rest);
      LessIsTotal(x, m);
      if Less(x, m) {
        forall y | y in s ensures y == x || Less(x, y) {
          if y != x && y != m { LessIsTransitive(x, m, y); }
        }
        assert IsLeast(x, s);
      } else {
        assert IsLeast(m, s);
      }
    }
  }

  // begin() of a non-empty std::set
  function Least(s: set<string>): (m: string)
    requires s != {}
    ensures IsLeast(m, s)
  {
    LeastExists(s);
    assert forall a, b | IsLeast(a, s) && IsLeast(b, s) :: a == b by {
      forall a, b | IsLeast(a, s) && IsLeast(b, s) ensures a == b { LessIsTotal(a, b); }
    }
    var m :| m in s && IsLeast(m, s);
    m
  }

  /** The elements of a std::set in the order an iterator meets them. */
  function Ascending(s: set<string>): seq<string> {
    if s == {} then [] else [Least(s)] + Ascending(s - {Least(s)})
  }

  /** Each element once, in strictly ascending order. */
  lemma {:induction false} AscendingIsSorted(s: set<string>)
    ensures var xs := Ascending(s);
            && |xs| == |s| && (forall x :: x in xs <==> x in s)
            && forall i, j | 0 <= i < j < |xs| :: Less(xs[i], xs[j])
  {
    hide Less, Least, IsLeast;
    if s != {} {
      var m := Least(s);
      LeastIsLess(s);
      AscendingIsSorted(s - {m});
      InFront(m, Ascending(s - {m}));
    }
  }

  lemma LeastIsLess(s: set<string>)
    requires s != {}
    ensures Least(s) in s && forall x | x in s - {Least(s)} :: Less(Least(s), x)
  {
    hide Less;
  }

  lemma InFront(m: string, xs: seq<string>)
    requires (forall x | x in xs :: Less(m, x)) && forall i, j | 0 <= i < j < |xs| :: Less(xs[i], xs[j])
    ensures var ys := [m] + xs; forall i, j | 0 <= i < j < |ys| :: Less(ys[i], ys[j])
  {
    hide Less;
    assert forall i | 0 < i <= |xs| :: ([m] + xs)[i] == xs[i - 1];
  }
}
