/**
 * Python's `str.strip()` without arguments: remove the longest prefix and the
 * longest suffix made of whitespace characters.
 */
module Text {

  /**
   * The characters Python's `str.isspace` accepts (and `str.strip` removes):
   * tab, line feed, vertical tab, form feed, carriage return, the four
   * information separators U+001C..U+001F, space, NEL, no-break space, and the
   * Unicode space separators and line/paragraph separators.
   */
  predicate IsSpace(c: char) {
    || ('\t' <= c <= '\r')
    || ('\U{1C}' <= c <= ' ')
    || c == '\U{85}' || c == '\U{A0}' || c == '\U{1680}'
    || ('\U{2000}' <= c <= '\U{200A}')
    || c == '\U{2028}' || c == '\U{2029}' || c == '\U{202F}' || c == '\U{205F}'
    || c == '\U{3000}'
  }

  predicate AllSpace(s: string) {
    forall k :: 0 <= k < |s| ==> IsSpace(s[k])
  }

  /** Neither starts nor ends with whitespace (the empty string qualifies). */
  predicate IsStripped(s: string) {
    s == [] || (!IsSpace(s[0]) && !IsSpace(s[|s| - 1]))
  }

  /** `s.lstrip()`. */
  function StripLeft(s: string): (r: string) {
    if s != [] && IsSpace(s[0]) then StripLeft(s[1..]) else s
  }

  /** `s.lstrip()` is a suffix of `s`, after a whitespace-only prefix. */
  lemma {:induction false} StripLeftSpec(s: string)
    ensures var r := StripLeft(s);
      && |r| <= |s| && r == s[|s| - |r|..]
      && AllSpace(s[..|s| - |r|])
      && (r != [] ==> !IsSpace(r[0]))
  {
    if s != [] && IsSpace(s[0]) {
      StripLeftSpec(s[1..]);
      var r := StripLeft(s);
      assert s[..|s| - |r|] == [s[0]] + s[1..][..|s| - 1 - |r|];
    }
  }

  /** `s.rstrip()`. */
  function StripRight(s: string): (r: string) {
    if s != [] && IsSpace(s[|s| - 1]) then StripRight(s[..|s| - 1]) else s
  }

  /** `s.rstrip()` is a prefix of `s`, before a whitespace-only suffix. */
  lemma {:induction false} StripRightSpec(s: string)
    ensures var r := StripRight(s);
      && |r| <= |s| && r == s[..|r|]
      && AllSpace(s[|r|..])
      && (r != [] ==> !IsSpace(r[|r| - 1]))
  {
    if s != [] && IsSpace(s[|s| - 1]) {
      var s' := s[..|s| - 1];
      StripRightSpec(s');
      var r := StripRight(s);
      assert s[|r|..] == s'[|r|..] + [s[|s| - 1]];
    }
  }

  /** `s.strip()`. */
  function Strip(s: string): (r: string)
    ensures |r| <= |s|
    ensures IsStripped(r)
    ensures r == [] <==> AllSpace(s)
  {
    var l := StripLeft(s);
    StripLeftSpec(s);
    var r := StripRight(l);
    StripRightSpec(l);
    assert r == [] ==> AllSpace(s) by {
      if r == [] {
        assert s == s[..|s| - |l|] + l;
        assert AllSpace(l[|r|..]);
      }
    }
    r
  }

  /** How many characters `Strip(s)` cuts off at the front. */
  function LeftMargin(s: string): (i: nat)
    ensures i + |Strip(s)| <= |s|
  {
    StripLeftSpec(s);
    StripRightSpec(StripLeft(s));
    |s| - |StripLeft(s)|
  }

  /** `Strip(s)` is the slice of `s` between the two whitespace margins. */
  lemma StripIsSlice(s: string)
    ensures Strip(s) == s[LeftMargin(s)..LeftMargin(s) + |Strip(s)|]
  {
    var i, n := LeftMargin(s), |Strip(s)|;
    var l := StripLeft(s);
    StripLeftSpec(s);
    assert l == s[i..];
    var r := StripRight(l);
    StripRightSpec(l);
    assert r == l[..n];
  }

  /** What `Strip` cuts off on either side is whitespace. */
  lemma StripCutsSpace(s: string)
    ensures AllSpace(s[..LeftMargin(s)]) && AllSpace(s[LeftMargin(s) + |Strip(s)|..])
  {
    var i, n := LeftMargin(s), |Strip(s)|;
    var l := StripLeft(s);
    StripLeftSpec(s);
    StripRightSpec(l);
    assert AllSpace(l[n..]);
    assert l[n..] == s[i + n..];
  }

  lemma Split3(s: string, i: nat, j: nat)
    requires i <= j <= |s|
    ensures s == s[..i] + s[i..j] + s[j..]
  {
  }

  /**
   * `Strip(s)` is what is left of `s` once a whitespace-only prefix and a
   * whitespace-only suffix are cut off.
   */
  lemma StripMargins(s: string)
    ensures var i := LeftMargin(s);
      && s == s[..i] + Strip(s) + s[i + |Strip(s)|..]
      && AllSpace(s[..i]) && AllSpace(s[i + |Strip(s)|..])
  {
    StripIsSlice(s);
    StripCutsSpace(s);
    Split3(s, LeftMargin(s), LeftMargin(s) + |Strip(s)|);
  }

  /** Whitespace in front of a string that does not start with whitespace is all `lstrip` removes. */
  lemma {:induction false} StripLeftOver(p: string, x: string)
    requires AllSpace(p)
    requires x == [] || !IsSpace(x[0])
    ensures StripLeft(p + x) == x
  {
    if p == [] {
      assert p + x == x;
    } else {
      assert (p + x)[0] == p[0];
      assert (p + x)[1..] == p[1..] + x;
      StripLeftOver(p[1..], x);
    }
  }

  /** Whitespace after a string that does not end with whitespace is all `rstrip` removes. */
  lemma {:induction false} StripRightOver(y: string, q: string)
    requires AllSpace(q)
    requires y == [] || !IsSpace(y[|y| - 1])
    ensures StripRight(y + q) == y
  {
    if q == [] {
      assert y + q == y;
    } else {
      var n := |y + q|;
      assert (y + q)[n - 1] == q[|q| - 1];
      assert (y + q)[..n - 1] == y + q[..|q| - 1];
      StripRightOver(y, q[..|q| - 1]);
    }
  }

  /**
   * Uniqueness: cutting any whitespace margins `p`, `q` off a string `m`
   * that is itself stripped gives `m` back.  With StripMargins this pins
   * `Strip` down completely.
   */
  lemma StripUnique(p: string, m: string, q: string)
    requires AllSpace(p) && AllSpace(q) && IsStripped(m)
    ensures Strip(p + m + q) == m
  {
    assert p + m + q == p + (m + q);
    if m == [] {
      assert m + q == q + [];
      assert AllSpace(q + []);
      StripLeftOver(p + (q + []), []);
      assert p + (q + []) + [] == p + (m + q);
    } else {
      assert (m + q)[0] == m[0];
      StripLeftOver(p, m + q);
      StripRightOver(m, q);
    }
  }

  /** Stripping is idempotent. */
  lemma StripIdempotent(s: string)
    ensures Strip(Strip(s)) == Strip(s)
  {
    var m := Strip(s);
    assert m == [] + m + [];
    StripUnique([], m, []);
  }
}
