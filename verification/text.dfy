/**
 * The JavaScript string operations the core relies on: `toLowerCase` (ASCII
 * letters only), `trim`, `includes` and `split` with a one-character
 * separator, each with the facts the other modules need about it.
 */
module Text {

  // ---------------------------------------------------------------------------
  // toLowerCase
  // ---------------------------------------------------------------------------

  /** Lower-cases one character; only the ASCII letters A-Z are mapped. */
  function LowerChar(c: char): (d: char)
    ensures 'A' <= c <= 'Z' ==> d as int == c as int + 32
    ensures !('A' <= c <= 'Z') ==> d == c
    ensures !('A' <= d <= 'Z')
  {
    if 'A' <= c <= 'Z' then (c as int + 32) as char else c
  }

  /** `s.toLowerCase()`, character by character. */
  function Lower(s: string): (r: string)
    ensures |r| == |s|
    ensures forall i :: 0 <= i < |s| ==> r[i] == LowerChar(s[i])
  {
    if s == [] then [] else [LowerChar(s[0])] + Lower(s[1..])
  }

  lemma LowerAppend(a: string, b: string)
    ensures Lower(a + b) == Lower(a) + Lower(b)
  {
    assert forall i :: 0 <= i < |a + b| ==> Lower(a + b)[i] == (Lower(a) + Lower(b))[i];
  }

  /** Lower-casing twice is lower-casing once. */
  lemma LowerIdempotent(s: string)
    ensures Lower(Lower(s)) == Lower(s)
  {
    assert forall i :: 0 <= i < |s| ==> Lower(Lower(s))[i] == Lower(s)[i];
  }

  // ---------------------------------------------------------------------------
  // trim
  // ---------------------------------------------------------------------------

  /**
   * The characters `String.prototype.trim` removes: the ECMAScript WhiteSpace
   * code points and the four LineTerminator code points.
   */
  const WhiteSpaceChars: set<char> := {
    '\t', '\n', '\U{000B}', '\U{000C}', '\r', ' ', '\U{00A0}', '\U{1680}',
    '\U{2000}', '\U{2001}', '\U{2002}', '\U{2003}', '\U{2004}', '\U{2005}',
    '\U{2006}', '\U{2007}', '\U{2008}', '\U{2009}', '\U{200A}',
    '\U{2028}', '\U{2029}', '\U{202F}', '\U{205F}', '\U{3000}', '\U{FEFF}'
  }

  predicate IsWhiteSpace(c: char) {
    c in WhiteSpaceChars
  }

  predicate AllWhiteSpace(s: string) {
    forall i :: 0 <= i < |s| ==> IsWhiteSpace(s[i])
  }

  /** Lower-casing never turns white space into a letter or back. */
  lemma LowerCharWhiteSpace(c: char)
    ensures IsWhiteSpace(LowerChar(c)) <==> IsWhiteSpace(c)
  {
  }

  /** Drops the leading white space. */
  function TrimStart(s: string): string {
    if s != [] && IsWhiteSpace(s[0]) then TrimStart(s[1..]) else s
  }

  /** Drops the trailing white space. */
  function TrimEnd(s: string): string {
    if s != [] && IsWhiteSpace(s[|s| - 1]) then TrimEnd(s[..|s| - 1]) else s
  }

  /** `s.trim()`: drops the white space at both ends. */
  function Trim(s: string): string {
    TrimEnd(TrimStart(s))
  }

  /** A trimmed string has no white space at either end. */
  predicate IsTrimmed(r: string) {
    r == [] || (!IsWhiteSpace(r[0]) && !IsWhiteSpace(r[|r| - 1]))
  }

  /** TrimStart removes a white-space prefix and stops at the first other character. */
  lemma {:induction false} TrimStartSpec(s: string) returns (p: string)
    ensures s == p + TrimStart(s) && AllWhiteSpace(p)
    ensures TrimStart(s) == [] || !IsWhiteSpace(TrimStart(s)[0])
  {
    if s != [] && IsWhiteSpace(s[0]) {
      var p' := TrimStartSpec(s[1..]);
      p := [s[0]] + p';
      assert s == [s[0]] + s[1..];
    } else {
      p := [];
    }
  }

  /** TrimEnd removes a white-space suffix and stops at the last other character. */
  lemma {:induction false} TrimEndSpec(s: string) returns (q: string)
    ensures s == TrimEnd(s) + q && AllWhiteSpace(q)
    ensures TrimEnd(s) == [] || !IsWhiteSpace(TrimEnd(s)[|TrimEnd(s)| - 1])
  {
    if s != [] && IsWhiteSpace(s[|s| - 1]) {
      var q' := TrimEndSpec(s[..|s| - 1]);
      q := q' + [s[|s| - 1]];
      assert s == s[..|s| - 1] + [s[|s| - 1]];
    } else {
      q := [];
    }
  }

  /**
   * What trim leaves out: `s` is a white-space prefix, the trimmed result and
   * a white-space suffix, in that order, and the result has no white space
   * at either end.
   */
  lemma TrimDecompose(s: string) returns (p: string, q: string)
    ensures s == p + Trim(s) + q
    ensures AllWhiteSpace(p) && AllWhiteSpace(q)
    ensures IsTrimmed(Trim(s))
  {
    var a := TrimStart(s);
    p := TrimStartSpec(s);
    q := TrimEndSpec(a);
    var r := TrimEnd(a);
    if r != [] && a != [] {
      assert r[0] == a[0];
    }
  }

  lemma {:induction false} TrimStartOfPadded(p: string, x: string)
    requires AllWhiteSpace(p)
    requires x == [] || !IsWhiteSpace(x[0])
    ensures TrimStart(p + x) == x
  {
    if p != [] {
      assert (p + x)[1..] == p[1..] + x;
      TrimStartOfPadded(p[1..], x);
    } else {
      assert p + x == x;
    }
  }

  lemma {:induction false} TrimEndOfPadded(x: string, q: string)
    requires AllWhiteSpace(q)
    requires x == [] || !IsWhiteSpace(x[|x| - 1])
    ensures TrimEnd(x + q) == x
  {
    if q != [] {
      assert (x + q)[..|x + q| - 1] == x + q[..|q| - 1];
      TrimEndOfPadded(x, q[..|q| - 1]);
    } else {
      assert x + q == x;
    }
  }

  /**
   * Trim is characterised independently of how it is computed: whenever `s`
   * is a white-space prefix, a trimmed core and a white-space suffix, the
   * core is what `trim` returns.
   */
  lemma TrimUnique(p: string, r: string, q: string)
    requires AllWhiteSpace(p) && AllWhiteSpace(q) && IsTrimmed(r)
    ensures Trim(p + r + q) == r
  {
    if r == [] {
      assert p + r + q == p + q;
      assert AllWhiteSpace(p + q);
      assert (p + q) + [] == p + q;
      TrimStartOfPadded(p + q, []);
    } else {
      assert p + r + q == p + (r + q);
      TrimStartOfPadded(p, r + q);
      TrimEndOfPadded(r, q);
    }
  }

  lemma TrimIdempotent(s: string)
    ensures Trim(Trim(s)) == Trim(s)
  {
    var _, _ := TrimDecompose(s);
    TrimOfTrimmed(Trim(s));
  }

  /** A string without white space at its ends is its own trim. */
  lemma TrimOfTrimmed(r: string)
    requires IsTrimmed(r)
    ensures Trim(r) == r
  {
    assert TrimStart(r) == r;
  }

  /** Lower-casing and trimming commute, so their order does not matter. */
  lemma LowerAllWhiteSpace(p: string)
    requires AllWhiteSpace(p)
    ensures AllWhiteSpace(Lower(p))
  {
    forall k | 0 <= k < |p| ensures IsWhiteSpace(Lower(p)[k]) {
      LowerCharWhiteSpace(p[k]);
    }
  }

  lemma LowerTrimmed(r: string)
    requires IsTrimmed(r)
    ensures IsTrimmed(Lower(r))
  {
    if r != [] {
      LowerCharWhiteSpace(r[0]);
      LowerCharWhiteSpace(r[|r| - 1]);
    }
  }

  /** Lower-casing and trimming commute, so their order does not matter. */
  lemma TrimLowerCommute(s: string)
    ensures Trim(Lower(s)) == Lower(Trim(s))
  {
    var r := Trim(s);
    var p, q := TrimDecompose(s);
    LowerAppend(p, r);
    LowerAppend(p + r, q);
    LowerAllWhiteSpace(p);
    LowerAllWhiteSpace(q);
    LowerTrimmed(r);
    TrimUnique(Lower(p), Lower(r), Lower(q));
  }

  // ---------------------------------------------------------------------------
  // includes
  // ---------------------------------------------------------------------------

  predicate OccursAt(hay: string, needle: string, i: int) {
    0 <= i && i + |needle| <= |hay| && hay[i..i + |needle|] == needle
  }

  /** `hay.includes(needle)`; the empty needle is found in every string. */
  predicate Contains(hay: string, needle: string) {
    exists i | 0 <= i <= |hay| - |needle| :: OccursAt(hay, needle, i)
  }

  /** A string is found wherever it sits inside another. */
  lemma ContainsInside(a: string, m: string, b: string)
    ensures Contains(a + m + b, m)
  {
    var s := a + m + b;
    assert s[|a|..|a| + |m|] == m;
    assert OccursAt(s, m, |a|);
  }

  /** A white-space prefix ends before any character that is not white space. */
  lemma WhitePrefixBound(s: string, p: string, k: int)
    requires |p| <= |s| && s[..|p|] == p && AllWhiteSpace(p)
    requires 0 <= k < |s| && !IsWhiteSpace(s[k])
    ensures |p| <= k
  {
  }

  /** A white-space suffix starts after any character that is not white space. */
  lemma WhiteSuffixBound(s: string, q: string, k: int)
    requires |q| <= |s| && s[|s| - |q|..] == q && AllWhiteSpace(q)
    requires 0 <= k < |s| && !IsWhiteSpace(s[k])
    ensures k < |s| - |q|
  {
  }

  /** A part found inside a slice of a string that covers it. */
  lemma ContainsInSlice(s: string, i: int, j: int, k: int, m: string)
    requires 0 <= i <= k && k + |m| <= j <= |s| && s[k..k + |m|] == m
    ensures Contains(s[i..j], m)
  {
    var t := s[i..j];
    var u := t[k - i..k - i + |m|];
    forall x | 0 <= x < |m|
      ensures u[x] == m[x]
    {
      assert u[x] == t[k - i + x] == s[k + x];
      assert m[x] == s[k..k + |m|][x];
    }
    assert u == m;
    assert OccursAt(t, m, k - i);
  }

  /**
   * Trimming never cuts into a part that starts and ends with a character
   * other than white space, whatever surrounds it.
   */
  lemma TrimKeepsCore(pre: string, m: string, post: string)
    requires m != [] && IsTrimmed(m)
    ensures Contains(Trim(pre + m + post), m)
  {
    var s := pre + m + post;
    var p, q := TrimDecompose(s);
    var t := Trim(s);
    assert s[..|p|] == p && s[|s| - |q|..] == q && t == s[|p|..|s| - |q|] by {
      assert s == p + t + q;
    }
    assert s[|pre|] == m[0] && s[|pre| + |m| - 1] == m[|m| - 1];
    WhitePrefixBound(s, p, |pre|);
    WhiteSuffixBound(s, q, |pre| + |m| - 1);
    assert s[|pre|..|pre| + |m|] == m;
    ContainsInSlice(s, |p|, |s| - |q|, |pre|, m);
  }

  // ---------------------------------------------------------------------------
  // split with a one-character separator
  // ---------------------------------------------------------------------------

  /**
   * `s.split(sep)`: the maximal separator-free runs of `s`, in order. The
   * first part is the prefix of `s` up to the first separator or the end.
   */
  function Split(s: string, sep: char): (parts: seq<string>)
    ensures |parts| >= 1
  {
    if s == [] then [[]]
    else
      var rest := Split(s[1..], sep);
      if s[0] == sep then [[]] + rest
      else [[s[0]] + rest[0]] + rest[1..]
  }

  /**
   * The parts of a split are separator-free, there is more than one exactly
   * when the separator occurs, and the first part is the prefix up to the
   * first separator or the end.
   */
  lemma {:induction false} SplitSpec(s: string, sep: char)
    ensures |Split(s, sep)| == 1 <==> sep !in s
    ensures forall k :: 0 <= k < |Split(s, sep)| ==> sep !in Split(s, sep)[k]
    ensures var p := Split(s, sep)[0];
      |p| <= |s| && p == s[..|p|] && (|p| < |s| ==> s[|p|] == sep)
  {
    if s != [] {
      SplitSpec(s[1..], sep);
      var rest := Split(s[1..], sep);
      if s[0] != sep {
        var parts := Split(s, sep);
        assert parts[0] == [s[0]] + rest[0];
        assert parts[1..] == rest[1..];
        assert s == [s[0]] + s[1..];
        forall k | 0 <= k < |parts| ensures sep !in parts[k] {
          if k > 0 { assert parts[k] == rest[k]; }
        }
      } else {
        assert Split(s, sep)[1..] == rest;
      }
    }
  }

  /** `parts.join(sep)`. */
  function Join(parts: seq<string>, sep: char): string
    requires |parts| >= 1
  {
    if |parts| == 1 then parts[0] else parts[0] + [sep] + Join(parts[1..], sep)
  }

  /** Joining the parts with the separator gives back the string. */
  lemma {:induction false} JoinSplit(s: string, sep: char)
    ensures Join(Split(s, sep), sep) == s
  {
    if s != [] {
      var rest := Split(s[1..], sep);
      JoinSplit(s[1..], sep);
      if s[0] == sep {
        assert Split(s, sep) == [[]] + rest;
        assert Split(s, sep)[1..] == rest;
      } else {
        var parts := Split(s, sep);
        assert parts == [[s[0]] + rest[0]] + rest[1..];
        if |rest| == 1 {
          assert Join(parts, sep) == [s[0]] + rest[0];
        } else {
          assert parts[1..] == rest[1..];
          assert Join(rest, sep) == rest[0] + [sep] + Join(rest[1..], sep);
        }
      }
    }
  }

  /** A separator-free run followed by the separator is split off as one part. */
  lemma {:induction false} SplitPrefix(a: string, sep: char, t: string)
    requires sep !in a
    ensures Split(a + [sep] + t, sep) == [a] + Split(t, sep)
  {
    if a == [] {
      assert a + [sep] + t == [sep] + t;
      assert ([sep] + t)[1..] == t;
    } else {
      assert (a + [sep] + t)[1..] == a[1..] + [sep] + t;
      SplitPrefix(a[1..], sep, t);
      assert (a + [sep] + t)[0] == a[0] != sep;
      assert [a[0]] + a[1..] == a;
    }
  }

  /** Splitting the join of separator-free parts gives back the parts. */
  lemma {:induction false} SplitJoin(parts: seq<string>, sep: char)
    requires |parts| >= 1
    requires forall k :: 0 <= k < |parts| ==> sep !in parts[k]
    ensures Split(Join(parts, sep), sep) == parts
  {
    if |parts| == 1 {
      SplitNoSeparator(parts[0], sep);
    } else {
      SplitJoin(parts[1..], sep);
      SplitPrefix(parts[0], sep, Join(parts[1..], sep));
      assert [parts[0]] + parts[1..] == parts;
    }
  }

  /**
   * The first part of a split is pinned down by its two properties: a
   * separator-free prefix followed by the separator or by the end.
   */
  lemma FirstPart(s: string, sep: char, q: string)
    requires |q| <= |s| && q == s[..|q|] && sep !in q
    requires |q| == |s| || s[|q|] == sep
    ensures Split(s, sep)[0] == q
  {
    SplitSpec(s, sep);
    var p := Split(s, sep)[0];
    if |p| < |q| {
      assert false;
    } else if |q| < |p| {
      assert false;
    }
  }

  /** A string without the separator splits into itself alone. */
  lemma SplitNoSeparator(s: string, sep: char)
    requires sep !in s
    ensures Split(s, sep) == [s]
  {
    FirstPart(s, sep, s);
  }
}
