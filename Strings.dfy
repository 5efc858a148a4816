/** Python string operations the narrative engine relies on, with the
    semantics of CPython's `str.split("\n")`, `"\n".join(...)`,
    `str.strip()`, `str.startswith` and `str.endswith`. */
module Strings {

  /** `str.isspace()` for one code point: exactly the characters that
      `str.strip()` with no argument removes. */
  predicate IsSpace(c: char) {
    c == ' ' || ('\t' <= c <= '\r') || ('\U{1C}' <= c <= '\U{1F}')
    || c == '\U{85}' || c == '\U{A0}' || c == '\U{1680}'
    || ('\U{2000}' <= c <= '\U{200A}') || c == '\U{2028}' || c == '\U{2029}'
    || c == '\U{202F}' || c == '\U{205F}' || c == '\U{3000}'
  }

  predicate AllSpace(s: string) {
    forall k :: 0 <= k < |s| ==> IsSpace(s[k])
  }

  /** `s.startswith(prefix)` */
  predicate StartsWith(s: string, prefix: string) {
    |prefix| <= |s| && s[..|prefix|] == prefix
  }

  /** `s.endswith(suffix)` */
  predicate EndsWith(s: string, suffix: string) {
    |suffix| <= |s| && s[|s| - |suffix|..] == suffix
  }

  /** A prefix survives any extension of the string it starts. */
  lemma StartsWithExtend(s: string, t: string, prefix: string)
    requires StartsWith(s, prefix)
    ensures StartsWith(s + t, prefix)
  {
    assert (s + t)[..|prefix|] == s[..|prefix|];
  }

  /** A leading newline cannot be part of a newline-free suffix, so it
      does not change whether the string ends with it. */
  lemma EndsWithAfterNewline(s: string, suffix: string)
    requires '\n' !in suffix
    ensures EndsWith("\n" + s, suffix) <==> EndsWith(s, suffix)
  {
    var t := "\n" + s;
    if |suffix| <= |s| {
      assert t[|t| - |suffix|..] == s[|s| - |suffix|..];
    } else if |suffix| == |t| {
      assert t[|t| - |suffix|..] == t;
      assert t[0] == '\n';
    }
  }

  /** `s.split("\n")`: never empty, no piece holds a newline. */
  function Split(s: string): (lines: seq<string>)
    ensures |lines| >= 1
    ensures forall k :: 0 <= k < |lines| ==> '\n' !in lines[k]
    decreases |s|
  {
    if |s| == 0 then [""]
    else if s[0] == '\n' then [""] + Split(s[1..])
    else
      var rest := Split(s[1..]);
      [[s[0]] + rest[0]] + rest[1..]
  }

  /** `"\n".join(lines)` */
  function Join(lines: seq<string>): string
  {
    if |lines| == 0 then ""
    else if |lines| == 1 then lines[0]
    else lines[0] + "\n" + Join(lines[1..])
  }

  /** `s.lstrip()` */
  function StripLeft(s: string): (r: string)
    ensures |r| <= |s| && r == s[|s| - |r|..]
    ensures AllSpace(s[..|s| - |r|])
    ensures r == [] || !IsSpace(r[0])
    decreases |s|
  {
    if |s| > 0 && IsSpace(s[0]) then
      var r := StripLeft(s[1..]);
      assert s[..|s| - |r|] == [s[0]] + s[1..][..|s| - 1 - |r|];
      assert s[|s| - |r|..] == s[1..][|s| - 1 - |r|..];
      r
    else s
  }

  /** `s.rstrip()` */
  function StripRight(s: string): (r: string)
    ensures |r| <= |s| && r == s[..|r|]
    ensures AllSpace(s[|r|..])
    ensures r == [] || !IsSpace(r[|r| - 1])
    decreases |s|
  {
    if |s| > 0 && IsSpace(s[|s| - 1]) then
      var r := StripRight(s[..|s| - 1]);
      assert s[|r|..] == s[..|s| - 1][|r|..] + [s[|s| - 1]];
      assert s[..|r|] == s[..|s| - 1][..|r|];
      r
    else s
  }

  /** `s.strip()`: no surrounding whitespace is left, and an all-blank
      string becomes empty. */
  function Strip(s: string): (r: string)
    ensures |r| <= |s|
    ensures r == [] || (!IsSpace(r[0]) && !IsSpace(r[|r| - 1]))
    ensures AllSpace(s) ==> r == []
  {
    var l := StripLeft(s);
    var r := StripRight(l);
    assert r != [] ==> l != [] && r[0] == l[0];
    r
  }

  // ---------------------------------------------------------------------
  // Split and Join

  lemma {:induction false} JoinCons(x: string, rest: seq<string>)
    requires |rest| >= 1
    ensures Join([x] + rest) == x + "\n" + Join(rest)
  {
    assert ([x] + rest)[1..] == rest;
  }

  lemma {:induction false} JoinSnoc(init: seq<string>, x: string)
    requires |init| >= 1
    ensures Join(init + [x]) == Join(init) + "\n" + x
    decreases |init|
  {
    if |init| > 1 {
      assert (init + [x])[1..] == init[1..] + [x];
      JoinSnoc(init[1..], x);
    } else {
      assert (init + [x])[1..] == [x];
    }
  }

  /** Joining the pieces of a split gives the string back. */
  lemma {:induction false} JoinSplit(s: string)
    ensures Join(Split(s)) == s
    decreases |s|
  {
    if |s| > 0 {
      var rest := Split(s[1..]);
      JoinSplit(s[1..]);
      if s[0] == '\n' {
        JoinCons("", rest);
        assert s == "\n" + s[1..];
      } else if |rest| == 1 {
        assert s == [s[0]] + s[1..];
      } else {
        JoinCons(rest[0], rest[1..]);
        assert rest == [rest[0]] + rest[1..];
        JoinCons([s[0]] + rest[0], rest[1..]);
        assert s == [s[0]] + s[1..];
      }
    }
  }

  /** A string without a newline is a single line. */
  lemma {:induction false} SplitOneLine(s: string)
    requires '\n' !in s
    ensures Split(s) == [s]
    decreases |s|
  {
    if |s| > 0 {
      assert '\n' !in s[1..] by {
        forall k | 0 <= k < |s[1..]| ensures s[1..][k] != '\n' { assert s[1..][k] == s[k + 1]; }
      }
      SplitOneLine(s[1..]);
      assert s == [s[0]] + s[1..];
    }
  }

  /** One step of `Split`: what a leading character does to the lines. */
  lemma SplitCons(c: char, s: string)
    ensures Split([c] + s) ==
      if c == '\n' then [""] + Split(s) else [[c] + Split(s)[0]] + Split(s)[1..]
  {
    assert ([c] + s)[1..] == s;
  }

  /** The lines of `sa` with `sb` glued on: the last line of `sa` and the
      first line of `sb` fuse into one. */
  function Fuse(sa: seq<string>, sb: seq<string>): seq<string>
    requires |sa| >= 1 && |sb| >= 1
  {
    sa[..|sa| - 1] + [sa[|sa| - 1] + sb[0]] + sb[1..]
  }

  lemma FuseConsNewline(u: seq<string>, sb: seq<string>)
    requires |u| >= 1 && |sb| >= 1
    ensures Fuse([""] + u, sb) == [""] + Fuse(u, sb)
  {
    assert ([""] + u)[..|u|] == [""] + u[..|u| - 1];
  }

  lemma FuseConsChar(c: char, u: seq<string>, sb: seq<string>)
    requires |u| >= 1 && |sb| >= 1
    ensures var t := Fuse(u, sb);
      Fuse([[c] + u[0]] + u[1..], sb) == [[c] + t[0]] + t[1..]
  {
    var t := Fuse(u, sb);
    if |u| == 1 {
      assert t[0] == u[0] + sb[0];
      assert t[1..] == sb[1..];
      assert [c] + u[0] + sb[0] == [c] + (u[0] + sb[0]);
    } else {
      assert t[0] == u[0];
      assert t[1..] == u[1..|u| - 1] + [u[|u| - 1] + sb[0]] + sb[1..];
      assert ([[c] + u[0]] + u[1..])[..|u| - 1] == [[c] + u[0]] + u[1..|u| - 1];
    }
  }

  /** How splitting distributes over concatenation. */
  lemma {:induction false} SplitConcat(a: string, b: string)
    ensures Split(a + b) == Fuse(Split(a), Split(b))
    decreases |a|
  {
    var sb := Split(b);
    if |a| == 0 {
      assert a + b == b;
      assert Split(a) == [""];
      assert "" + sb[0] == sb[0];
      assert sb == [sb[0]] + sb[1..];
    } else {
      assert a + b == [a[0]] + (a[1..] + b);
      assert a == [a[0]] + a[1..];
      SplitCons(a[0], a[1..] + b);
      SplitCons(a[0], a[1..]);
      SplitConcat(a[1..], b);
      if a[0] == '\n' {
        FuseConsNewline(Split(a[1..]), sb);
      } else {
        FuseConsChar(a[0], Split(a[1..]), sb);
      }
    }
  }

  /** A leading newline adds an empty first line. */
  lemma SplitAfterNewline(s: string)
    ensures Split("\n" + s) == [""] + Split(s)
  {
    assert ("\n" + s)[1..] == s;
  }

  /** A newline splits a string into the lines of its two sides. */
  lemma SplitAround(a: string, b: string)
    ensures Split(a + "\n" + b) == Split(a) + Split(b)
  {
    var sa := Split(a);
    SplitConcat(a, "\n" + b);
    assert a + "\n" + b == a + ("\n" + b);
    SplitCons('\n', b);
    assert "\n" + b == ['\n'] + b;
    assert sa[|sa| - 1] + "" == sa[|sa| - 1];
    assert sa[..|sa| - 1] + [sa[|sa| - 1]] == sa;
  }

  /** A newline-free line followed by a newline is a line of its own. */
  lemma SplitFirstLine(line: string, rest: string)
    requires '\n' !in line
    ensures Split(line + "\n" + rest) == [line] + Split(rest)
  {
    SplitOneLine(line);
    SplitAround(line, rest);
  }

  // ---------------------------------------------------------------------
  // Strip

  lemma {:induction false} StripLeftSpaces(p: string, t: string)
    requires AllSpace(p)
    requires t == [] || !IsSpace(t[0])
    ensures StripLeft(p + t) == t
    decreases |p|
  {
    if |p| > 0 {
      assert (p + t)[1..] == p[1..] + t;
      StripLeftSpaces(p[1..], t);
    } else {
      assert p + t == t;
    }
  }

  lemma {:induction false} StripRightSpaces(t: string, q: string)
    requires AllSpace(q)
    requires t == [] || !IsSpace(t[|t| - 1])
    ensures StripRight(t + q) == t
    decreases |q|
  {
    if |q| > 0 {
      assert (t + q)[..|t + q| - 1] == t + q[..|q| - 1];
      StripRightSpaces(t, q[..|q| - 1]);
    } else {
      assert t + q == t;
    }
  }

  /** `strip()` is characterised by what it leaves: any string made of
      whitespace, a core that neither starts nor ends with whitespace,
      and whitespace, strips to that core. */
  lemma StripExactly(p: string, m: string, q: string)
    requires AllSpace(p) && AllSpace(q)
    requires m == [] || (!IsSpace(m[0]) && !IsSpace(m[|m| - 1]))
    ensures Strip(p + m + q) == m
  {
    if m == [] {
      assert p + m + q == p + q;
      assert AllSpace(p + q);
    } else {
      assert p + m + q == p + (m + q);
      StripLeftSpaces(p, m + q);
      StripRightSpaces(m, q);
    }
  }

  /** A leading newline never survives `strip()`. */
  lemma StripLeadingNewline(s: string)
    ensures Strip("\n" + s) == Strip(s)
  {
    assert ("\n" + s)[1..] == s;
  }

  // ---------------------------------------------------------------------
  // Subsequences of lines

  /** `a` is `b` with some elements dropped, order kept. */
  predicate IsSubsequence(a: seq<string>, b: seq<string>)
    decreases |b|
  {
    if |a| == 0 then true
    else if |b| == 0 then false
    else (a[|a| - 1] == b[|b| - 1] && IsSubsequence(a[..|a| - 1], b[..|b| - 1]))
         || IsSubsequence(a, b[..|b| - 1])
  }

  lemma {:induction false} JoinLastNoShorter(b: seq<string>)
    requires |b| >= 1
    ensures |Join(b)| >= |b[|b| - 1]|
  {
    if |b| > 1 {
      JoinSnoc(b[..|b| - 1], b[|b| - 1]);
      assert b[..|b| - 1] + [b[|b| - 1]] == b;
    }
  }

  /** Dropping lines never makes their join longer. */
  lemma {:induction false} JoinSubsequenceNoLonger(a: seq<string>, b: seq<string>)
    requires IsSubsequence(a, b)
    ensures |Join(a)| <= |Join(b)|
    decreases |b|
  {
    if |a| > 0 {
      var ia, ib := a[..|a| - 1], b[..|b| - 1];
      assert a == ia + [a[|a| - 1]];
      assert b == ib + [b[|b| - 1]];
      if ib != [] {
        JoinSnoc(ib, b[|b| - 1]);
      }
      if a[|a| - 1] == b[|b| - 1] && IsSubsequence(ia, ib) {
        if ia == [] {
          JoinLastNoShorter(b);
        } else {
          assert ib != [];
          JoinSnoc(ia, a[|a| - 1]);
          JoinSubsequenceNoLonger(ia, ib);
        }
      } else {
        assert IsSubsequence(a, ib);
        assert ib != [];
        JoinSubsequenceNoLonger(a, ib);
      }
    }
  }
}
