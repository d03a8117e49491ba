/** The order of Mastodon status ids. */
module StatusId {
  import opened StringOrder
  import opened Decimal

  predicate IsDigit(c: char) { '0' <= c <= '9' }

  predicate Digits(s: string) { forall i :: 0 <= i < |s| ==> IsDigit(s[i]) }

  function Value(s: string): nat
    requires Digits(s)
  {
    if s == [] then 0 else 10 * Value(s[..|s| - 1]) + (s[|s| - 1] as nat - '0' as nat)
  }

  /** strconv.ParseUint(s, 10, 64) succeeds. */
  predicate Parses(s: string) { s != [] && Digits(s) && Value(s) < 0x1_0000_0000_0000_0000 }

  /** By number where both are uint64s, else by length and then as strings. */
  predicate IdLess(a: string, b: string) {
    if Parses(a) && Parses(b) then Value(a) < Value(b)
    else if |a| != |b| then |a| < |b|
    else Before(a, b)
  }

  predicate ShortLex(a: string, b: string) { |a| < |b| || (|a| == |b| && Before(a, b)) }

  /** Not a decimal number written with leading zeros. */
  predicate Canonical(s: string) { Digits(s) && |s| > 1 ==> s[0] != '0' }

  lemma {:induction false} ValueBounds(s: string)
    requires Digits(s) && s != []
    ensures Value(s) < Power10(|s|)
    ensures s[0] != '0' ==> Power10(|s| - 1) <= Value(s)
  {
    if |s| > 1 {
      ValueBounds(s[..|s| - 1]);
    }
  }

  lemma {:induction false} SameLength(a: string, b: string)
    requires Digits(a) && Digits(b) && |a| == |b|
    ensures Value(a) < Value(b) <==> Before(a, b)
    ensures Value(a) == Value(b) <==> a == b
    decreases |a|
  {
    if a != [] {
      var n := |a| - 1;
      SameLength(a[..n], b[..n]);
      BeforeAppend(a[..n], b[..n], [a[n]], [b[n]]);
      assert a == a[..n] + [a[n]] && b == b[..n] + [b[n]];
    }
  }

  lemma {:induction false} PowerMonotone(m: nat, n: nat)
    requires m <= n
    ensures Power10(m) <= Power10(n)
    decreases n
  {
    if m < n { PowerMonotone(m, n - 1); }
  }

  /** Without leading zeros the mixed order is one order: by length, then as strings. */
  lemma OneOrder(a: string, b: string)
    requires Canonical(a) && Canonical(b)
    ensures IdLess(a, b) <==> ShortLex(a, b)
  {
    if Parses(a) && Parses(b) {
      if |a| == |b| {
        SameLength(a, b);
      } else {
        ValueBounds(a);
        ValueBounds(b);
        if |a| < |b| { PowerMonotone(|a|, |b| - 1); } else { PowerMonotone(|b|, |a| - 1); }
      }
    }
  }

  /** So it can be chained, and any two ids compare one way only. */
  lemma Chains(a: string, b: string, c: string)
    requires Canonical(a) && Canonical(b) && Canonical(c)
    ensures IdLess(a, b) && IdLess(b, c) ==> IdLess(a, c)
    ensures !(IdLess(a, b) && IdLess(b, a))
    ensures a == b || IdLess(a, b) || IdLess(b, a)
  {
    hide IdLess, Before;
    OneOrder(a, b);
    OneOrder(b, a);
    OneOrder(b, c);
    OneOrder(a, c);
    BeforeTotal(a, b);
    if Before(a, b) && Before(b, c) { BeforeTransitive(a, b, c); }
  }

  /** With leading zeros the order can run in a circle. */
  lemma LeadingZerosCircle()
    ensures IdLess("10", "zz") && IdLess("zz", "009") && IdLess("009", "10")
  {
    assert Value("10") == 10 by { assert "10"[..1] == "1" && "1"[..0] == ""; }
    assert Value("009") == 9 by { assert "009"[..2] == "00" && "00"[..1] == "0" && "0"[..0] == ""; }
    assert !IsDigit("zz"[0]);
  }

  lemma ShortLexOrder(a: string, b: string, c: string)
    ensures ShortLex(a, b) && ShortLex(b, c) ==> ShortLex(a, c)
    ensures !(ShortLex(a, b) && ShortLex(b, a))
  {
    hide Before;
    BeforeTotal(a, b);
    if Before(a, b) && Before(b, c) { BeforeTransitive(a, b, c); }
  }

  /** Two numbers with something that is no number between them, the wrong way round. */
  predicate Straddles(x: string, y: string, z: string) {
    Parses(x) && Parses(y) && !Parses(z) && Value(x) < Value(y) && ShortLex(y, z) && ShortLex(z, x)
  }

  /** Exactly when three ids run in a circle. */
  lemma CircleIff(a: string, b: string, c: string)
    ensures (IdLess(a, b) && IdLess(b, c) && IdLess(c, a)) <==> (Straddles(a, b, c) || Straddles(b, c, a) || Straddles(c, a, b))
  {
    hide ShortLex, Before, Parses;
    assert forall x, y :: (Parses(x) && Parses(y)) || (IdLess(x, y) <==> ShortLex(x, y)) by { NotBothNumbers(); }
    ShortLexOrder(a, b, c);
    ShortLexOrder(c, a, b);
    ShortLexOrder(a, c, a);
  }

  lemma NotBothNumbers()
    ensures forall x, y :: (Parses(x) && Parses(y)) || (IdLess(x, y) <==> ShortLex(x, y))
  {
  }

  /** Which takes a number written longer than a larger one: with leading zeros. */
  lemma StraddlingTakesZeros(x: string, y: string, z: string)
    requires Straddles(x, y, z)
    ensures !Canonical(x)
  {
    ShortLexOrder(y, z, x);
    if Canonical(x) { LongerIsLarger(y, x); }
  }

  lemma LongerIsLarger(y: string, x: string)
    requires Parses(x) && Parses(y) && Canonical(x) && ShortLex(y, x)
    ensures Value(y) < Value(x)
  {
    if |x| == |y| {
      SameLength(y, x);
    } else {
      ValueBounds(x);
      ValueBounds(y);
      PowerMonotone(|y|, |x| - 1);
    }
  }
}
