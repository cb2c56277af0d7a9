/** Whitespace trimming as done by Go's `strings.TrimSpace` on a line that
    has already been decoded into runes. */
module Text {

  import opened Quotes

  /** Go's `unicode.IsSpace`: the Latin-1 spaces plus the Unicode
      White_Space code points above Latin-1. */
  predicate IsSpace(c: char) {
    var n := c as int;
    || (0x09 <= n <= 0x0D)
    || n == 0x20
    || n == 0x85
    || n == 0xA0
    || n == 0x1680
    || (0x2000 <= n <= 0x200A)
    || n == 0x2028
    || n == 0x2029
    || n == 0x202F
    || n == 0x205F
    || n == 0x3000
  }

  predicate AllSpace(s: string) {
    forall k :: 0 <= k < |s| ==> IsSpace(s[k])
  }

  /** Drops the maximal run of leading whitespace. */
  function TrimLeft(s: string): (r: string)
    ensures |r| <= |s| && r == s[|s| - |r|..]
    ensures AllSpace(s[..|s| - |r|])
    ensures r == [] || !IsSpace(r[0])
    decreases |s|
  {
    if |s| > 0 && IsSpace(s[0]) then
      var r := TrimLeft(s[1..]);
      var n := |s| - |r|;
      assert s[1..][..n - 1] == s[1..n];
      assert s[..n] == [s[0]] + s[1..n];
      r
    else
      s
  }

  /** Drops the maximal run of trailing whitespace. */
  function TrimRight(s: string): (r: string)
    ensures |r| <= |s| && r == s[..|r|]
    ensures AllSpace(s[|r|..])
    ensures r == [] || !IsSpace(r[|r| - 1])
    decreases |s|
  {
    if |s| > 0 && IsSpace(s[|s| - 1]) then
      var r := TrimRight(s[..|s| - 1]);
      assert s[|r|..] == s[..|s| - 1][|r|..] + [s[|s| - 1]];
      r
    else
      s
  }

  /** Where the trimmed line starts inside `s`. */
  function TrimStart(s: string): nat {
    |s| - |TrimLeft(s)|
  }

  /** `strings.TrimSpace`: the result is the piece of `s` starting at
      `TrimStart(s)`, with no whitespace at either end, and everything cut
      away on both sides is whitespace. */
  function TrimSpace(s: string): (r: string)
    ensures TrimStart(s) + |r| <= |s| && r == s[TrimStart(s)..TrimStart(s) + |r|]
    ensures AllSpace(s[..TrimStart(s)]) && AllSpace(s[TrimStart(s) + |r|..])
    ensures r == [] || (!IsSpace(r[0]) && !IsSpace(r[|r| - 1]))
  {
    var m := TrimLeft(s);
    var r := TrimRight(m);
    var i := |s| - |m|;
    assert s[i..i + |r|] == r;
    assert s[i + |r|..] == m[|r|..];
    r
  }

  /** A quote is not whitespace, so no quote lies in a whitespace run. */
  lemma AllSpaceHasNoQuotes(s: string)
    requires AllSpace(s)
    ensures QuoteCount(s) == 0
  {
  }

  /** Trimming removes no quote character, so it preserves quote balance. */
  lemma TrimSpaceKeepsQuotes(s: string)
    ensures QuoteCount(TrimSpace(s)) == QuoteCount(s)
    ensures Balanced(TrimSpace(s)) <==> Balanced(s)
  {
    var r := TrimSpace(s);
    var i := TrimStart(s);
    var front, back := s[..i], s[i + |r|..];
    assert s == front + r + back;
    AllSpaceHasNoQuotes(front);
    AllSpaceHasNoQuotes(back);
    assert multiset(s) == multiset(front) + multiset(r) + multiset(back);
  }

  /** Trimming an already trimmed line changes nothing. */
  lemma TrimSpaceIdempotent(s: string)
    ensures TrimSpace(TrimSpace(s)) == TrimSpace(s)
  {
    var r := TrimSpace(s);
    var e: string := [];
    assert e + r + e == r;
    TrimSpaceUnique(e, r, e);
  }

  /** Trimming the left of whitespace followed by a piece that does not
      start with whitespace yields exactly that piece. */
  lemma {:induction false} TrimLeftSkips(a: string, x: string)
    requires AllSpace(a)
    requires x == [] || !IsSpace(x[0])
    ensures TrimLeft(a + x) == x
    decreases |a|
  {
    if a != [] {
      assert (a + x)[1..] == a[1..] + x;
      TrimLeftSkips(a[1..], x);
    }
  }

  /** Mirror image of `TrimLeftSkips` for the right end. */
  lemma {:induction false} TrimRightSkips(x: string, b: string)
    requires AllSpace(b)
    requires x == [] || !IsSpace(x[|x| - 1])
    ensures TrimRight(x + b) == x
    decreases |b|
  {
    if b != [] {
      assert (x + b)[..|x + b| - 1] == x + b[..|b| - 1];
      TrimRightSkips(x, b[..|b| - 1]);
    }
  }

  /** The trimmed line is the only way to write `s` as whitespace, then a
      piece with no whitespace at its ends, then whitespace. */
  lemma TrimSpaceUnique(a: string, t: string, b: string)
    requires AllSpace(a) && AllSpace(b)
    requires t == [] || (!IsSpace(t[0]) && !IsSpace(t[|t| - 1]))
    ensures TrimSpace(a + t + b) == t
  {
    assert a + t + b == a + (t + b);
    if t == [] {
      assert AllSpace(b) && t + b == b;
      assert AllSpace(a + b);
      TrimLeftSkips(a + b, []);
      assert a + b + [] == a + b;
    } else {
      TrimLeftSkips(a, t + b);
      TrimRightSkips(t, b);
    }
  }
}
