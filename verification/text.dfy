/**
 * String helpers shared by the client (JavaScript) and the server (Go) parts
 * of the model: prefix and substring tests, whitespace trimming with a
 * pluggable notion of "space", suffix removal and ASCII case folding.
 */
module Text {

  /** Every character of `s` satisfies `p`. */
  predicate All(s: string, p: char -> bool) {
    forall i :: 0 <= i < |s| ==> p(s[i])
  }

  predicate IsPrefix(p: string, s: string) {
    |p| <= |s| && s[..|p|] == p
  }

  predicate IsSuffix(x: string, s: string) {
    |x| <= |s| && s[|s| - |x|..] == x
  }

  /** Go's strings.Contains: `sub` occurs somewhere in `s` (the empty string occurs everywhere). */
  predicate Contains(s: string, sub: string)
    decreases |s|
  {
    IsPrefix(sub, s) || (|s| > 0 && Contains(s[1..], sub))
  }

  /** Contains agrees with the positional reading of "substring". */
  lemma {:induction false} ContainsAt(s: string, sub: string, k: nat)
    requires k + |sub| <= |s| && s[k..k + |sub|] == sub
    ensures Contains(s, sub)
    decreases k
  {
    if k == 0 {
      assert s[..|sub|] == sub;
    } else {
      assert s[1..][k - 1..k - 1 + |sub|] == s[k..k + |sub|];
      ContainsAt(s[1..], sub, k - 1);
    }
  }

  lemma {:induction false} ContainsWitness(s: string, sub: string) returns (k: nat)
    requires Contains(s, sub)
    ensures k + |sub| <= |s| && s[k..k + |sub|] == sub
    decreases |s|
  {
    if IsPrefix(sub, s) {
      k := 0;
    } else {
      var j := ContainsWitness(s[1..], sub);
      assert s[1..][j..j + |sub|] == s[j + 1..j + 1 + |sub|];
      k := j + 1;
    }
  }

  /** Length of the longest prefix of `s` whose characters all satisfy `p`. */
  function Span(s: string, p: char -> bool): (n: nat)
    ensures n <= |s| && All(s[..n], p)
    ensures n == |s| || !p(s[n])
    decreases |s|
  {
    if |s| > 0 && p(s[0]) then
      var k := Span(s[1..], p);
      assert s[..k + 1] == [s[0]] + s[1..][..k];
      k + 1
    else 0
  }

  /** Span is pinned down by its two promises: any `m` meeting them is the span. */
  lemma {:induction false} SpanUnique(s: string, p: char -> bool, m: nat)
    requires m <= |s| && All(s[..m], p) && (m == |s| || !p(s[m]))
    ensures Span(s, p) == m
    decreases m
  {
    if m > 0 {
      assert s[..m][0] == s[0];
      assert s[1..][..m - 1] == s[..m][1..];
      SpanUnique(s[1..], p, m - 1);
    }
  }

  /** The span of `x + y` is exactly `x` when `x` satisfies `p` throughout and `y` does not start with a `p` character. */
  lemma SpanExact(x: string, y: string, p: char -> bool)
    requires All(x, p) && (y == [] || !p(y[0]))
    ensures Span(x + y, p) == |x|
  {
    assert (x + y)[..|x|] == x;
    SpanUnique(x + y, p, |x|);
  }

  // ---------------------------------------------------------------------------
  // Whitespace

  /**
   * The characters JavaScript's String.prototype.trim removes: the
   * WhiteSpace and LineTerminator productions of ECMAScript.
   */
  predicate IsJsSpace(c: char) {
    c == '\t' || c == '\n' || c == '\U{B}' || c == '\U{C}' || c == '\r' || c == ' '
    || c == '\U{A0}' || c == '\U{1680}' || ('\U{2000}' <= c <= '\U{200A}')
    || c == '\U{2028}' || c == '\U{2029}' || c == '\U{202F}' || c == '\U{205F}'
    || c == '\U{3000}' || c == '\U{FEFF}'
  }

  /** The characters Go's unicode.IsSpace accepts, hence what strings.TrimSpace removes. */
  predicate IsGoSpace(c: char) {
    c == '\t' || c == '\n' || c == '\U{B}' || c == '\U{C}' || c == '\r' || c == ' '
    || c == '\U{85}' || c == '\U{A0}' || c == '\U{1680}' || ('\U{2000}' <= c <= '\U{200A}')
    || c == '\U{2028}' || c == '\U{2029}' || c == '\U{202F}' || c == '\U{205F}' || c == '\U{3000}'
  }

  /** Drops the longest prefix of characters satisfying `ws`. */
  function TrimStart(s: string, ws: char -> bool): (r: string)
    ensures |r| <= |s| && r == s[|s| - |r|..]
    ensures All(s[..|s| - |r|], ws)
    ensures r == [] || !ws(r[0])
    decreases |s|
  {
    if |s| > 0 && ws(s[0]) then
      var t := TrimStart(s[1..], ws);
      assert s[1..][..|s| - 1 - |t|] == s[1..|s| - |t|];
      t
    else s
  }

  /** Drops the longest suffix of characters satisfying `ws`. */
  function TrimEnd(s: string, ws: char -> bool): (r: string)
    ensures |r| <= |s| && r == s[..|r|]
    ensures All(s[|r|..], ws)
    ensures r == [] || !ws(r[|r| - 1])
    decreases |s|
  {
    if |s| > 0 && ws(s[|s| - 1]) then
      var t := TrimEnd(s[..|s| - 1], ws);
      assert s[..|s| - 1][|t|..] + [s[|s| - 1]] == s[|t|..];
      t
    else s
  }

  /** Removes leading and trailing `ws` characters (String.prototype.trim / strings.TrimSpace). */
  function Trim(s: string, ws: char -> bool): (r: string)
    ensures |r| <= |s|
    ensures r == [] || (!ws(r[0]) && !ws(r[|r| - 1]))
    ensures r == [] <==> All(s, ws)
  {
    var t := TrimStart(s, ws);
    var r := TrimEnd(t, ws);
    assert r == [] ==> All(s, ws) by {
      if r == [] {
        assert s == s[..|s| - |t|] + t;
        assert t == t[|r|..];
      }
    }
    assert r != [] ==> !ws(t[0]) && r[0] == t[0];
    r
  }

  /** Trimming a string padded only with `ws` characters recovers the unpadded string. */
  lemma TrimPadded(x: string, u: string, y: string, ws: char -> bool)
    requires All(x, ws) && All(y, ws)
    requires u != [] && !ws(u[0]) && !ws(u[|u| - 1])
    ensures Trim(x + u + y, ws) == u
  {
    var s := x + u + y;
    assert s == x + (u + y);
    TrimStartPadded(x, u + y, ws);
    assert TrimStart(s, ws) == u + y;
    TrimEndPadded(u, y, ws);
  }

  lemma {:induction false} TrimStartPadded(x: string, v: string, ws: char -> bool)
    requires All(x, ws)
    requires v != [] && !ws(v[0])
    ensures TrimStart(x + v, ws) == v
    decreases |x|
  {
    if x == [] {
      assert x + v == v;
    } else {
      assert (x + v)[1..] == x[1..] + v;
      TrimStartPadded(x[1..], v, ws);
    }
  }

  lemma {:induction false} TrimEndPadded(u: string, y: string, ws: char -> bool)
    requires All(y, ws)
    requires u != [] && !ws(u[|u| - 1])
    ensures TrimEnd(u + y, ws) == u
    decreases |y|
  {
    if y == [] {
      assert u + y == u;
    } else {
      assert (u + y)[..|u + y| - 1] == u + y[..|y| - 1];
      TrimEndPadded(u, y[..|y| - 1], ws);
    }
  }

  /** Go's strings.TrimSuffix: removes `suffix` once, only if `s` ends with it. */
  function TrimSuffix(s: string, suffix: string): string {
    if IsSuffix(suffix, s) then s[..|s| - |suffix|] else s
  }

  // ---------------------------------------------------------------------------
  // Characters

  predicate IsDigit(c: char) {
    '0' <= c <= '9'
  }

  /** ASCII lower-casing of one character. */
  function LowerChar(c: char): char {
    if 'A' <= c <= 'Z' then (c as int + 32) as char else c
  }

  /** Lower-cases the ASCII letters of `s` and leaves every other character alone. */
  function AsciiLower(s: string): (r: string)
    ensures |r| == |s|
    ensures forall i :: 0 <= i < |s| ==> r[i] == LowerChar(s[i])
  {
    seq(|s|, i requires 0 <= i < |s| => LowerChar(s[i]))
  }
}
