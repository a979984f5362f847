/**
 * The Python string operations the core relies on: `str.strip()`,
 * `s.split(sep)[0]` and `sep.join(xs)`.
 */
module Text {

  /**
   * Python's `str.isspace()` for one character: the control characters
   * U+0009..U+000D and U+001C..U+001F, the space, and the Unicode spaces
   * and separators Python treats as whitespace.
   */
  predicate IsSpace(c: char) {
    || ('\t' <= c <= '\r')
    || ('\U{1C}' <= c <= ' ')
    || c == '\U{85}' || c == '\U{A0}' || c == '\U{1680}'
    || ('\U{2000}' <= c <= '\U{200A}')
    || c == '\U{2028}' || c == '\U{2029}' || c == '\U{202F}' || c == '\U{205F}'
    || c == '\U{3000}'
  }

  predicate AllSpace(s: string) {
    forall k :: 0 <= k < |s| ==> IsSpace(s[k])
  }

  /** No whitespace at either end: what `strip()` leaves. */
  predicate Trimmed(s: string) {
    s == [] || (!IsSpace(s[0]) && !IsSpace(s[|s| - 1]))
  }

  /** `s.lstrip()`: drops the longest all-whitespace prefix. */
  function LStrip(s: string): (r: string)
    ensures |r| <= |s| && r == s[|s| - |r|..]
    ensures AllSpace(s[..|s| - |r|])
    ensures r == [] || !IsSpace(r[0])
  {
    if s != [] && IsSpace(s[0]) then
      var r := LStrip(s[1..]);
      LStripStep(s, r);
      r
    else s
  }

  /** One step of `LStrip`: a space in front joins the removed prefix. */
  lemma {:induction false} LStripStep(s: string, r: string)
    requires s != [] && IsSpace(s[0])
    requires |r| <= |s| - 1 && r == s[1..][|s| - 1 - |r|..]
    requires AllSpace(s[1..][..|s| - 1 - |r|])
    ensures r == s[|s| - |r|..]
    ensures AllSpace(s[..|s| - |r|])
  {
    var t := s[1..];
    assert s[..|s| - |r|] == [s[0]] + t[..|t| - |r|];
  }

  /** `s.rstrip()`: drops the longest all-whitespace suffix. */
  function RStrip(s: string): (r: string)
    ensures |r| <= |s| && r == s[..|r|]
    ensures AllSpace(s[|r|..])
    ensures r == [] || !IsSpace(r[|r| - 1])
  {
    if s != [] && IsSpace(s[|s| - 1]) then
      var r := RStrip(s[..|s| - 1]);
      RStripStep(s, r);
      r
    else s
  }

  /** One step of `RStrip`: a space at the back joins the removed suffix. */
  lemma {:induction false} RStripStep(s: string, r: string)
    requires s != [] && IsSpace(s[|s| - 1])
    requires |r| <= |s| - 1 && r == s[..|s| - 1][..|r|]
    requires AllSpace(s[..|s| - 1][|r|..])
    ensures r == s[..|r|]
    ensures AllSpace(s[|r|..])
  {
    var t := s[..|s| - 1];
    assert s[|r|..] == t[|r|..] + [s[|s| - 1]];
  }

  /** `s.strip()`. */
  function Strip(s: string): (r: string)
    ensures |r| <= |s|
    ensures Trimmed(r)
  {
    RStrip(LStrip(s))
  }

  lemma {:induction false} LStripSpacePrefix(a: string, m: string)
    requires AllSpace(a)
    requires m == [] || !IsSpace(m[0])
    ensures LStrip(a + m) == m
  {
    if a != [] {
      assert (a + m)[1..] == a[1..] + m;
      LStripSpacePrefix(a[1..], m);
    } else {
      assert a + m == m;
    }
  }

  lemma {:induction false} RStripSpaceSuffix(m: string, b: string)
    requires AllSpace(b)
    requires m == [] || !IsSpace(m[|m| - 1])
    ensures RStrip(m + b) == m
  {
    if b != [] {
      assert (m + b)[..|m + b| - 1] == m + b[..|b| - 1];
      RStripSpaceSuffix(m, b[..|b| - 1]);
    } else {
      assert m + b == m;
    }
  }

  /**
   * `strip()` is determined by its result: whitespace padding around a trimmed
   * string is exactly what it removes.
   */
  lemma {:induction false} StripUnique(a: string, m: string, b: string)
    requires AllSpace(a) && AllSpace(b) && Trimmed(m)
    ensures Strip(a + m + b) == m
  {
    if m == [] {
      assert a + m + b == a + b;
      assert AllSpace(a + b);
      LStripSpacePrefix(a + b, []);
      assert a + b + [] == a + b;
    } else {
      assert a + m + b == a + (m + b);
      LStripSpacePrefix(a, m + b);
      RStripSpaceSuffix(m, b);
    }
  }

  /** Stripping twice is stripping once. */
  lemma {:induction false} StripIdempotent(s: string)
    ensures Strip(Strip(s)) == Strip(s)
  {
    var m := Strip(s);
    assert Trimmed(m) && AllSpace([]);
    assert [] + m + [] == m;
    StripUnique([], m, []);
  }

  /** Whitespace added at either end of a line does not change what `strip()` returns. */
  lemma {:induction false} StripIgnoresPadding(a: string, s: string, b: string)
    requires AllSpace(a) && AllSpace(b)
    ensures Strip(a + s + b) == Strip(s)
  {
    var m := Strip(s);
    var a', b' := LeftMargin(s), RightMargin(s);
    StripMargins(s);
    SeqAssoc5(a, a', m, b', b);
    AllSpaceConcat(a, a');
    AllSpaceConcat(b', b);
    StripUnique(a + a', m, b' + b);
  }

  /** The whitespace `strip()` removes from the front of `s`. */
  function LeftMargin(s: string): (a: string)
    ensures AllSpace(a)
  {
    s[..|s| - |LStrip(s)|]
  }

  /** The whitespace `strip()` removes from the back of `s`. */
  function RightMargin(s: string): (b: string)
    ensures AllSpace(b)
  {
    var l := LStrip(s);
    l[|RStrip(l)|..]
  }

  lemma {:induction false} StripMargins(s: string)
    ensures s == LeftMargin(s) + Strip(s) + RightMargin(s)
  {
    LeftMarginSplits(s);
    RightMarginSplits(s);
    SeqAssoc(LeftMargin(s), Strip(s), RightMargin(s));
  }

  lemma {:induction false} LeftMarginSplits(s: string)
    ensures s == LeftMargin(s) + LStrip(s)
  {
  }

  lemma {:induction false} RightMarginSplits(s: string)
    ensures LStrip(s) == Strip(s) + RightMargin(s)
  {
    RStripSplits(LStrip(s));
  }

  lemma {:induction false} RStripSplits(l: string)
    ensures l == RStrip(l) + l[|RStrip(l)|..]
  {
    var n := |RStrip(l)|;
    assert l == l[..n] + l[n..];
  }

  lemma {:induction false} SeqAssoc(a: string, m: string, b: string)
    ensures a + (m + b) == a + m + b
  {
  }

  lemma {:induction false} SeqAssoc5(p: string, q: string, r: string, t: string, u: string)
    ensures p + (q + r + t) + u == (p + q) + r + (t + u)
  {
  }

  lemma {:induction false} AllSpaceConcat(x: string, y: string)
    requires AllSpace(x) && AllSpace(y)
    ensures AllSpace(x + y)
  {
    forall k | 0 <= k < |x + y| ensures IsSpace((x + y)[k]) {
      if k >= |x| { assert (x + y)[k] == y[k - |x|]; }
    }
  }

  /** A line that starts with a trimmed prefix keeps that prefix under `strip()`. */
  lemma {:induction false} StripKeepsTrimmedPrefix(p: string, rest: string)
    requires p != [] && Trimmed(p)
    ensures Strip(p + rest) == p + RStrip(rest)
  {
    var r := RStrip(rest);
    var b := rest[|r|..];
    assert rest == r + b;
    assert p + rest == [] + (p + r) + b;
    StripUnique([], p + r, b);
  }

  /** `s.split(sep)[0]`: everything before the first `sep`, or all of `s`. */
  function FirstField(s: string, sep: char): (r: string)
    ensures sep !in r
    ensures |r| <= |s| && r == s[..|r|]
    ensures |r| < |s| ==> s[|r|] == sep
  {
    if s == [] || s[0] == sep then [] else [s[0]] + FirstField(s[1..], sep)
  }

  /** The first field is recovered from a line that joins it to the rest with `sep`. */
  lemma {:induction false} FirstFieldOfJoined(field: string, sep: char, rest: string)
    requires sep !in field
    ensures FirstField(field + [sep] + rest, sep) == field
    ensures FirstField(field, sep) == field
  {
    var s := field + [sep] + rest;
    assert s[|field|] == sep;
    assert forall k :: 0 <= k < |field| ==> s[k] == field[k];
  }

  function TotalLength(xs: seq<string>): nat {
    if xs == [] then 0 else |xs[0]| + TotalLength(xs[1..])
  }

  /** `sep.join(xs)`. */
  function Join(xs: seq<string>, sep: string): (r: string)
    ensures xs == [] ==> r == []
    ensures xs != [] ==> |r| == TotalLength(xs) + (|xs| - 1) * |sep|
    ensures xs != [] ==> |xs[0]| <= |r| && r[..|xs[0]|] == xs[0]
  {
    if xs == [] then []
    else if |xs| == 1 then xs[0]
    else xs[0] + sep + Join(xs[1..], sep)
  }

  /** A single item is joined to itself. */
  lemma {:induction false} JoinSingle(x: string, sep: string)
    ensures Join([x], sep) == x
  {
  }

  /**
   * Cutting the items anywhere cuts the joined text at one separator: every
   * item appears in order, with exactly one separator between neighbours.
   */
  lemma {:induction false} JoinSplit(xs: seq<string>, sep: string, i: nat)
    requires 0 < i < |xs|
    ensures Join(xs, sep) == Join(xs[..i], sep) + sep + Join(xs[i..], sep)
    decreases i
  {
    if i == 1 {
      assert xs[..1] == [xs[0]];
      JoinSingle(xs[0], sep);
    } else {
      var t := xs[1..];
      JoinSplit(t, sep, i - 1);
      assert xs[..i][0] == xs[0] && xs[..i][1..] == t[..i - 1];
      assert t[i - 1..] == xs[i..];
      var a, b := Join(t[..i - 1], sep), Join(xs[i..], sep);
      assert Join(xs[..i], sep) == xs[0] + sep + a;
      assert Join(xs, sep) == xs[0] + sep + (a + sep + b);
      assert xs[0] + sep + (a + sep + b) == (xs[0] + sep + a) + sep + b;
    }
  }
}
