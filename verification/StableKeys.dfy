/**
 The identities the ledger and the policy engine agree on.  Each is the preimage of its hash, the hash
 being taken as injective; strings are sequences of bytes.
 */
module StableKeys {
  // ------------------------------------------------------------ decimal numbers

  function Digit(n: nat): char
    requires n < 10
  {
    "0123456789"[n]
  }

  function Decimal(n: nat): (s: string)
    ensures |s| > 0
  {
    if n < 10 then [Digit(n)] else Decimal(n / 10) + [Digit(n % 10)]
  }

  predicate Without(s: string, c: char) { forall i :: 0 <= i < |s| ==> s[i] != c }

  lemma {:induction false} DecimalWithout(n: nat, c: char)
    requires c == ':' || c == '|' || c == '\0'
    ensures Without(Decimal(n), c)
  {
    if n >= 10 { DecimalWithout(n / 10, c); }
  }

  lemma {:induction false} DecimalInjective(m: nat, n: nat)
    requires Decimal(m) == Decimal(n)
    ensures m == n
  {
    var s, t := Decimal(m), Decimal(n);
    assert s[|s| - 1] == Digit(m % 10) && t[|t| - 1] == Digit(n % 10);
    if m >= 10 && n >= 10 {
      assert Decimal(m / 10) == s[..|s| - 1] && Decimal(n / 10) == t[..|t| - 1];
      DecimalInjective(m / 10, n / 10);
    }
  }

  /** The number a text of decimal digits spells. */
  function Value(s: string): nat
    requires forall i :: 0 <= i < |s| ==> '0' <= s[i] <= '9'
  {
    if |s| == 0 then 0 else 10 * Value(s[..|s| - 1]) + (s[|s| - 1] - '0') as nat
  }

  /** Digits that spell n, with no zero in front of others. */
  predicate Numeral(s: string, n: nat) {
    && |s| > 0 && (forall i :: 0 <= i < |s| ==> '0' <= s[i] <= '9')
    && (|s| > 1 ==> s[0] != '0') && Value(s) == n
  }

  lemma {:induction false} DecimalIsNumeral(n: nat)
    ensures Numeral(Decimal(n), n) && (n > 0 ==> Decimal(n)[0] != '0')
  {
    var s := Decimal(n);
    if n >= 10 {
      DecimalIsNumeral(n / 10);
      assert s[..|s| - 1] == Decimal(n / 10);
    } else {
      assert s[..0] == [];
    }
  }

  /** No other text spells n so. */
  lemma {:induction false} NumeralIsDecimal(s: string, n: nat)
    requires Numeral(s, n)
    ensures s == Decimal(n)
  {
    var front, last := s[..|s| - 1], (s[|s| - 1] - '0') as nat;
    assert Digit(last) == s[|s| - 1];
    if |s| > 1 {
      assert front[0] == s[0];
      NumeralIsDecimal(front, Value(front));
      LeadingDigit(front);
      assert n / 10 == Value(front) && n % 10 == last;
      assert s == front + [s[|s| - 1]];
    } else {
      assert front == [] && s == [s[0]];
    }
  }

  lemma {:induction false} LeadingDigit(s: string)
    requires |s| > 0 && s[0] != '0' && forall i :: 0 <= i < |s| ==> '0' <= s[i] <= '9'
    ensures Value(s) > 0
  {
    if |s| > 1 { LeadingDigit(s[..|s| - 1]); }
  }

  // ------------------------------------------------------------ white space and separators

  predicate Space(c: char) {
    || '\t' <= c <= '\r' || c == ' ' || c == 0x85 as char || c == 0xA0 as char || c == 0x1680 as char
    || 0x2000 as char <= c <= 0x200A as char || c == 0x2028 as char || c == 0x2029 as char || c == 0x202F as char
    || c == 0x205F as char || c == 0x3000 as char
  }

  /** A text free of the separator can be cut off at its first occurrence. */
  lemma CutAtFirst(a: string, b: string, x: string, y: string, c: char)
    requires Without(a, c) && Without(b, c) && a + [c] + x == b + [c] + y
    ensures a == b && x == y
  {
    var s, t := a + [c] + x, b + [c] + y;
    assert s[|a|] == c && forall i :: 0 <= i < |a| ==> s[i] == a[i];
    assert t[|b|] == c && forall i :: 0 <= i < |b| ==> t[i] == b[i];
    assert a == s[..|a|] && b == t[..|b|] && x == s[|a| + 1..] && y == t[|b| + 1..];
  }

  /** And at its last, when the tail is free of it. */
  lemma CutAtLast(a: string, b: string, x: string, y: string, c: char)
    requires Without(x, c) && Without(y, c) && a + [c] + x == b + [c] + y
    ensures a == b && x == y
  {
    var s, t := a + [c] + x, b + [c] + y;
    assert s[|a|] == c && forall i :: |a| < i < |s| ==> s[i] == x[i - |a| - 1];
    assert t[|b|] == c && forall i :: |b| < i < |t| ==> t[i] == y[i - |b| - 1];
    assert a == s[..|a|] && b == t[..|b|] && x == s[|a| + 1..] && y == t[|b| + 1..];
  }

  /** The separator lies inside b's text: b is a, a separator and z, and x is z, a separator and y. */
  predicate Slides(a: string, x: string, b: string, y: string, c: char) {
    |a| < |b| && b[..|a|] == a && b[|a|] == c && x == b[|a| + 1..] + [c] + y
  }

  predicate Blur(a: string, x: string, b: string, y: string, c: char) { Slides(a, x, b, y, c) || Slides(b, y, a, x, c) }

  lemma SlidesJoin(a: string, x: string, b: string, y: string, c: char)
    requires |a| < |b|
    ensures a + [c] + x == b + [c] + y <==> Slides(a, x, b, y, c)
  {
    var s, t := a + [c] + x, b + [c] + y;
    if s == t {
      assert b[..|a|] == t[..|a|] == s[..|a|] == a;
      assert b[|a|] == t[|a|] == s[|a|] == c;
      assert x == s[|a| + 1..] && t[|a| + 1..] == b[|a| + 1..] + [c] + y;
    }
    if Slides(a, x, b, y, c) {
      assert b == a + [c] + b[|a| + 1..];
      assert s == a + [c] + b[|a| + 1..] + [c] + y;
    }
  }

  /** Texts joined by a separator are the same exactly when their parts are, or they blur. */
  lemma JoinedAlike(a: string, x: string, b: string, y: string, c: char)
    ensures a + [c] + x == b + [c] + y <==> (a == b && x == y) || Blur(a, x, b, y, c)
  {
    if |a| < |b| {
      SlidesJoin(a, x, b, y, c);
    } else if |b| < |a| {
      SlidesJoin(b, y, a, x, c);
    } else if a + [c] + x == b + [c] + y {
      var s := a + [c] + x;
      assert a == s[..|a|] == b && x == s[|a| + 1..] == y;
    }
  }

  lemma WithoutIsSharp(a: string, x: string, b: string, y: string, c: char)
    requires Without(a, c) && Without(b, c)
    ensures !Blur(a, x, b, y, c)
  {
  }

  // ------------------------------------------------------------ stable keys

  /** What is hashed: every part with its length in front. */
  function Preimage(parts: seq<string>): string {
    if |parts| == 0 then "" else Decimal(|parts[0]|) + [':'] + (parts[0] + Preimage(parts[1..]))
  }

  /** The parts, and how many there are, can be read back. */
  lemma {:induction false} PreimageDecodable(p: seq<string>, q: seq<string>)
    requires Preimage(p) == Preimage(q)
    ensures p == q
  {
    if |p| > 0 && |q| > 0 {
      var x, y := p[0] + Preimage(p[1..]), q[0] + Preimage(q[1..]);
      DecimalWithout(|p[0]|, ':');
      DecimalWithout(|q[0]|, ':');
      CutAtFirst(Decimal(|p[0]|), Decimal(|q[0]|), x, y, ':');
      DecimalInjective(|p[0]|, |q[0]|);
      assert p[0] == x[..|p[0]|] && q[0] == y[..|q[0]|];
      assert Preimage(p[1..]) == x[|p[0]|..] && Preimage(q[1..]) == y[|q[0]|..];
      PreimageDecodable(p[1..], q[1..]);
      assert p == [p[0]] + p[1..] && q == [q[0]] + q[1..];
    }
  }

  function StableKeyForAdmission(uid: string, action: string, decision: string): string {
    if uid == "" then "" else "admission/" + Preimage([uid, action, decision])
  }

  function StableKeyForAutomatic(action: string, object_: string, step: string): string {
    "automatic/" + Preimage([action, object_, step])
  }

  lemma AutomaticKeysDecodable(a: string, o: string, s: string, b: string, p: string, t: string)
    requires StableKeyForAutomatic(a, o, s) == StableKeyForAutomatic(b, p, t)
    ensures a == b && o == p && s == t
  {
    var k := StableKeyForAutomatic(a, o, s);
    assert Preimage([a, o, s]) == k[10..] && Preimage([b, p, t]) == k[10..];
    PreimageDecodable([a, o, s], [b, p, t]);
    assert [a, o, s][0] == a && [a, o, s][1] == o && [a, o, s][2] == s;
  }

  lemma AdmissionKeysDecodable(u: string, a: string, d: string, v: string, b: string, e: string)
    requires u != "" && StableKeyForAdmission(u, a, d) == StableKeyForAdmission(v, b, e)
    ensures u == v && a == b && d == e
  {
    var k := StableKeyForAdmission(u, a, d);
    assert k[0] == 'a' && v != "";
    assert Preimage([u, a, d]) == k[10..] && Preimage([v, b, e]) == k[10..];
    PreimageDecodable([u, a, d], [v, b, e]);
    assert [u, a, d][0] == u && [u, a, d][1] == a && [u, a, d][2] == d;
  }

  /** No request made through admission shares a key with an automatic action. */
  lemma KindsAreDistinct(u: string, a: string, d: string, b: string, o: string, s: string)
    ensures StableKeyForAdmission(u, a, d) != StableKeyForAutomatic(b, o, s)
  {
    var k := StableKeyForAutomatic(b, o, s);
    assert k[1] == 'u';
    if u != "" { assert StableKeyForAdmission(u, a, d)[1] == 'd'; }
  }
}
