/** The two JavaScript string operations the application relies on:
    `String.prototype.trim` and `String.prototype.startsWith`.

    `trim` removes the ECMAScript WhiteSpace and LineTerminator code points
    from both ends. The model fixes that set at ECMAScript 2023 with the
    Unicode 15 space separators (category Zs). */
module JsString {

  /** ECMAScript WhiteSpace (TAB, VT, FF, ZWNBSP, and category Zs) and
      LineTerminator (LF, CR, LS, PS). */
  predicate IsWs(c: char) {
    || c == '\t' || c == '\n' || c == '\U{000B}' || c == '\U{000C}' || c == '\r'
    || c == ' ' || c == '\U{00A0}' || c == '\U{1680}'
    || ('\U{2000}' <= c <= '\U{200A}')
    || c == '\U{2028}' || c == '\U{2029}' || c == '\U{202F}' || c == '\U{205F}'
    || c == '\U{3000}' || c == '\U{FEFF}'
  }

  /** Every character of `s` is whitespace (vacuously true of ""). */
  predicate AllWs(s: string) {
    forall i :: 0 <= i < |s| ==> IsWs(s[i])
  }

  /** What `trim` leaves: empty, or neither end is whitespace. */
  predicate Trimmed(t: string) {
    t == [] || (!IsWs(t[0]) && !IsWs(t[|t| - 1]))
  }

  /** `s.trimStart()`: the suffix of `s` left after its leading whitespace. */
  function TrimStart(s: string): (r: string)
    ensures |r| <= |s| && r == s[|s| - |r|..]
    ensures AllWs(s[..|s| - |r|])
    ensures r == [] || !IsWs(r[0])
    decreases |s|
  {
    if |s| > 0 && IsWs(s[0]) then
      var r := TrimStart(s[1..]);
      DropFirstWs(s, r);
      r
    else s
  }

  /** `s.trimEnd()`: the prefix of `s` left before its trailing whitespace. */
  function TrimEnd(s: string): (r: string)
    ensures |r| <= |s| && r == s[..|r|]
    ensures AllWs(s[|r|..])
    ensures r == [] || !IsWs(r[|r| - 1])
    decreases |s|
  {
    if |s| > 0 && IsWs(s[|s| - 1]) then
      var r := TrimEnd(s[..|s| - 1]);
      DropLastWs(s, r);
      r
    else s
  }

  /** A suffix of `s[1..]` behind whitespace is a suffix of `s` behind
      whitespace when `s[0]` is whitespace too. */
  lemma DropFirstWs(s: string, r: string)
    requires |s| > 0 && IsWs(s[0])
    requires |r| <= |s| - 1 && r == s[1..][|s| - 1 - |r|..]
    requires AllWs(s[1..][..|s| - 1 - |r|])
    ensures r == s[|s| - |r|..] && AllWs(s[..|s| - |r|])
  {
    assert s[..|s| - |r|] == [s[0]] + s[1..][..|s| - 1 - |r|];
    AllWsCons(s[0], s[1..][..|s| - 1 - |r|]);
  }

  /** The mirror image of `DropFirstWs`, at the end of `s`. */
  lemma DropLastWs(s: string, r: string)
    requires |s| > 0 && IsWs(s[|s| - 1])
    requires |r| <= |s| - 1 && r == s[..|s| - 1][..|r|]
    requires AllWs(s[..|s| - 1][|r|..])
    ensures r == s[..|r|] && AllWs(s[|r|..])
  {
    assert s[|r|..] == s[..|s| - 1][|r|..] + [s[|s| - 1]];
    AllWsSnoc(s[..|s| - 1][|r|..], s[|s| - 1]);
  }

  lemma AllWsCons(c: char, w: string)
    requires IsWs(c) && AllWs(w)
    ensures AllWs([c] + w)
  {
    forall i | 0 <= i < |[c] + w| ensures IsWs(([c] + w)[i]) {
      if i > 0 { assert ([c] + w)[i] == w[i - 1]; }
    }
  }

  lemma AllWsSnoc(w: string, c: char)
    requires AllWs(w) && IsWs(c)
    ensures AllWs(w + [c])
  {
    forall i | 0 <= i < |w + [c]| ensures IsWs((w + [c])[i]) {
      if i < |w| { assert (w + [c])[i] == w[i]; }
    }
  }

  /** `s.trim()`: no whitespace is left at either end. */
  function Trim(s: string): string {
    TrimEnd(TrimStart(s))
  }

  /** `s.startsWith(prefix)`. */
  predicate StartsWith(s: string, prefix: string) {
    |prefix| <= |s| && s[..|prefix|] == prefix
  }

  /** `s.startsWith(prefix)` holds exactly when `s` is `prefix` followed by
      something. */
  lemma StartsWithIff(s: string, prefix: string)
    ensures StartsWith(s, prefix) <==> exists rest :: s == prefix + rest
  {
    if StartsWith(s, prefix) {
      assert s == prefix + s[|prefix|..];
    }
    forall rest | s == prefix + rest ensures StartsWith(s, prefix) {
      assert s[..|prefix|] == prefix;
    }
  }

  /** `trim` cuts `s` into leading whitespace, a trimmed middle, and
      trailing whitespace. */
  lemma TrimSplits(s: string)
    ensures Trimmed(Trim(s))
    ensures SplitAround(s, |s| - |TrimStart(s)|, Trim(s))
  {
    var u := TrimStart(s);
    TrimEndTrimmed(u);
    SplitAt(s, |s| - |u|, u, TrimEnd(u));
  }

  /** `s` is whitespace, then `t` starting at `n`, then whitespace. */
  predicate SplitAround(s: string, n: nat, t: string) {
    n + |t| <= |s| && s == s[..n] + t + s[n + |t|..]
    && AllWs(s[..n]) && AllWs(s[n + |t|..])
  }

  /** Trimming the end of a string with no leading whitespace leaves a
      trimmed string. */
  lemma TrimEndTrimmed(u: string)
    requires u == [] || !IsWs(u[0])
    ensures Trimmed(TrimEnd(u))
  {
    var t := TrimEnd(u);
    if t != [] {
      assert t[0] == u[0];
    }
  }

  /** A whitespace prefix, a prefix `t` of the rest, and whitespace after
      `t` make up the whole string. */
  lemma SplitAt(s: string, n: nat, u: string, t: string)
    requires n <= |s| && u == s[n..] && |t| <= |u| && t == u[..|t|]
    requires AllWs(s[..n]) && AllWs(u[|t|..])
    ensures SplitAround(s, n, t)
  {
    assert s[n..n + |t|] == t;
    assert u[|t|..] == s[n + |t|..];
    assert s == s[..n] + s[n..n + |t|] + s[n + |t|..];
  }

  /** Leading whitespace is invisible to `trimStart`. */
  lemma {:induction false} TrimStartSkips(a: string, s: string)
    requires AllWs(a)
    ensures TrimStart(a + s) == TrimStart(s)
    decreases |a|
  {
    if a != [] {
      assert (a + s)[0] == a[0] && IsWs(a[0]);
      assert (a + s)[1..] == a[1..] + s;
      assert TrimStart(a + s) == TrimStart(a[1..] + s);
      TrimStartSkips(a[1..], s);
    } else {
      assert a + s == s;
    }
  }

  /** Trailing whitespace is invisible to `trimEnd`. */
  lemma {:induction false} TrimEndSkips(s: string, b: string)
    requires AllWs(b)
    ensures TrimEnd(s + b) == TrimEnd(s)
    decreases |b|
  {
    if b != [] {
      assert (s + b)[|s + b| - 1] == b[|b| - 1] && IsWs(b[|b| - 1]);
      assert (s + b)[..|s + b| - 1] == s + b[..|b| - 1];
      assert TrimEnd(s + b) == TrimEnd(s + b[..|b| - 1]);
      TrimEndSkips(s, b[..|b| - 1]);
    } else {
      assert s + b == s;
    }
  }

  /** Uniqueness of the split: whatever whitespace surrounds a trimmed
      string, `trim` gives back exactly that string. */
  lemma TrimUnique(a: string, t: string, b: string)
    requires AllWs(a) && AllWs(b) && Trimmed(t)
    ensures Trim(a + t + b) == t
  {
    assert a + t + b == a + (t + b);
    TrimStartSkips(a, t + b);
    if t == [] {
      assert t + b == b;
      assert TrimStart(b) == [];
    } else {
      assert (t + b)[0] == t[0];
      assert TrimStart(t + b) == t + b;
      TrimEndSkips(t, b);
    }
  }

  /** Surrounding whitespace never changes the result of `trim`. */
  lemma TrimIgnoresPadding(p: string, s: string, q: string)
    requires AllWs(p) && AllWs(q)
    ensures Trim(p + s + q) == Trim(s)
  {
    TrimSplits(s);
    var n := |s| - |TrimStart(s)|;
    var t := Trim(s);
    var lead, trail := s[..n], s[n + |t|..];
    assert s == lead + t + trail;
    calc {
      p + s + q;
      p + (lead + t + trail) + q;
      { SeqRegroup(p, lead, t, trail, q); }
      (p + lead) + t + (trail + q);
    }
    AllWsConcat(p, lead);
    AllWsConcat(trail, q);
    TrimUnique(p + lead, t, trail + q);
  }

  lemma SeqRegroup(p: string, a: string, t: string, b: string, q: string)
    ensures p + (a + t + b) + q == (p + a) + t + (b + q)
  {
  }

  lemma AllWsConcat(x: string, y: string)
    requires AllWs(x) && AllWs(y)
    ensures AllWs(x + y)
  {
    forall i | 0 <= i < |x + y| ensures IsWs((x + y)[i]) {
      if i < |x| { assert (x + y)[i] == x[i]; } else { assert (x + y)[i] == y[i - |x|]; }
    }
  }

  /** `trim` is idempotent. */
  lemma TrimIdempotent(s: string)
    ensures Trim(Trim(s)) == Trim(s)
  {
    TrimSplits(s);
    TrimUnique([], Trim(s), []);
    assert [] + Trim(s) + [] == Trim(s);
  }

  /** `!s.trim()` holds exactly for the empty and whitespace-only strings. */
  lemma TrimEmptyIffBlank(s: string)
    ensures Trim(s) == [] <==> AllWs(s)
  {
    TrimSplits(s);
    if AllWs(s) {
      TrimUnique(s, [], []);
      assert s + [] + [] == s;
    }
  }
}
