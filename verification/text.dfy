/** String operations shared by the Python and JavaScript code: `split` on a
    separator, `join`, `startswith`, the text before a character, the part after
    the last separator, and whitespace trimming (`str.strip`, `String.trim`). */
module Text {

  /** `sep` occurs in `s` starting at index `j`. */
  predicate OccursAt(s: string, sep: string, j: nat) {
    j + |sep| <= |s| && s[j..j + |sep|] == sep
  }

  predicate Contains(s: string, sep: string) {
    exists j: nat | j <= |s| :: OccursAt(s, sep, j)
  }

  predicate StartsWith(s: string, prefix: string) {
    |prefix| <= |s| && s[..|prefix|] == prefix
  }

  predicate EndsWith(s: string, suffix: string) {
    |suffix| <= |s| && s[|s| - |suffix|..] == suffix
  }

  /** The first occurrence of `sep` in `s` at or after index `i`, or -1. */
  function FindFrom(s: string, sep: string, i: nat): (r: int)
    requires |sep| > 0 && i <= |s|
    ensures r == -1 || (i <= r && OccursAt(s, sep, r))
    ensures forall j: nat :: i <= j && (r == -1 || j < r) ==> !OccursAt(s, sep, j)
    decreases |s| - i
  {
    if i + |sep| > |s| then -1
    else if OccursAt(s, sep, i) then i
    else FindFrom(s, sep, i + 1)
  }

  /** `parts.join(sep)`. */
  function Join(parts: seq<string>, sep: string): string {
    if |parts| == 0 then ""
    else if |parts| == 1 then parts[0]
    else parts[0] + sep + Join(parts[1..], sep)
  }

  /** `s.split(sep)` for a non-empty separator, in JavaScript and in Python:
      scan left to right, cut at every non-overlapping occurrence. */
  function Split(s: string, sep: string): (parts: seq<string>)
    requires |sep| > 0
    ensures |parts| >= 1
    ensures Join(parts, sep) == s
    ensures forall k :: 0 <= k < |parts| ==> !Contains(parts[k], sep)
    decreases |s|
  {
    var i := FindFrom(s, sep, 0);
    if i < 0 then
      [s]
    else
      var rest := Split(s[i + |sep|..], sep);
      var parts := [s[..i]] + rest;
      assert parts[1..] == rest;
      assert s == s[..i] + sep + s[i + |sep|..];
      assert !Contains(s[..i], sep) by {
        forall j: nat | j <= i ensures !OccursAt(s[..i], sep, j) {
          if j + |sep| <= i {
            assert s[..i][j..j + |sep|] == s[j..j + |sep|];
            assert !OccursAt(s, sep, j);
          }
        }
      }
      parts
  }

  lemma NotContainsChar(t: string, c: char)
    requires !Contains(t, [c])
    ensures c !in t
  {
    if c in t {
      var j :| 0 <= j < |t| && t[j] == c;
      assert t[j..j + 1] == [c];
      assert OccursAt(t, [c], j);
    }
  }

  /** A separator whose first character does not occur in `s` never occurs in it. */
  lemma FindNone(s: string, sep: string)
    requires |sep| > 0 && sep[0] !in s
    ensures FindFrom(s, sep, 0) == -1
  {
  }

  /** The first occurrence is at `i` when the separator's first character does
      not appear before `i`. */
  lemma FindFirst(s: string, sep: string, i: nat)
    requires |sep| > 0 && OccursAt(s, sep, i)
    requires sep[0] !in s[..i]
    ensures FindFrom(s, sep, 0) == i
  {
  }

  lemma SplitWhole(s: string, sep: string)
    requires |sep| > 0 && sep[0] !in s
    ensures Split(s, sep) == [s]
  {
    FindNone(s, sep);
  }

  lemma SplitAt(s: string, sep: string, i: nat)
    requires |sep| > 0 && OccursAt(s, sep, i)
    requires sep[0] !in s[..i]
    ensures Split(s, sep) == [s[..i]] + Split(s[i + |sep|..], sep)
  {
    FindFirst(s, sep, i);
  }

  /** Splitting a joined list gives the list back, provided no part holds the
      separator's first character. */
  lemma {:induction false} SplitJoin(parts: seq<string>, sep: string)
    requires |sep| > 0 && |parts| > 0
    requires forall k :: 0 <= k < |parts| ==> sep[0] !in parts[k]
    ensures Split(Join(parts, sep), sep) == parts
  {
    if |parts| == 1 {
      SplitWhole(parts[0], sep);
    } else {
      var p, tail := parts[0], Join(parts[1..], sep);
      var s := Join(parts, sep);
      assert s == p + sep + tail;
      assert s[..|p|] == p;
      assert s[|p|..|p| + |sep|] == sep;
      assert s[|p| + |sep|..] == tail;
      SplitAt(s, sep, |p|);
      SplitJoin(parts[1..], sep);
    }
  }

  lemma {:induction false} JoinLast(parts: seq<string>, sep: string)
    requires |parts| >= 2
    ensures Join(parts, sep) == Join(parts[..|parts| - 1], sep) + sep + parts[|parts| - 1]
    decreases |parts|
  {
    if |parts| > 2 {
      JoinLast(parts[1..], sep);
      assert parts[1..][..|parts| - 2] == parts[..|parts| - 1][1..];
    } else {
      assert parts[..1] == [parts[0]];
    }
  }

  /** The text of `t` before the first `c` (all of `t` when there is none). */
  function Before(t: string, c: char): (r: string)
    ensures |r| <= |t| && r == t[..|r|]
    ensures c !in r
    ensures |r| < |t| ==> t[|r|] == c
  {
    if t == [] || t[0] == c then [] else [t[0]] + Before(t[1..], c)
  }

  /** When `c` does not occur in `a` and `b` starts with `c`, the text
      before the first `c` of `a + b` is `a`. */
  lemma {:induction false} BeforeSeparator(a: string, c: char, b: string)
    requires c !in a && |b| > 0 && b[0] == c
    ensures Before(a + b, c) == a
  {
    if a == [] {
      assert a + b == b;
    } else {
      assert (a + b)[1..] == a[1..] + b;
      BeforeSeparator(a[1..], c, b);
    }
  }

  /** Without a `c`, the text before the first `c` is all of `t`. */
  lemma {:induction false} BeforeAbsent(t: string, c: char)
    requires c !in t
    ensures Before(t, c) == t
  {
    if t != [] {
      BeforeAbsent(t[1..], c);
    }
  }

  /** `t.split(c)[0]` is the text before the first `c`. */
  lemma SplitHead(t: string, c: char)
    ensures Split(t, [c])[0] == Before(t, c)
  {
    var r := Before(t, c);
    if |r| < |t| {
      assert t[|r|..|r| + 1] == [c];
      SplitAt(t, [c], |r|);
    } else {
      assert r == t;
      SplitWhole(t, [c]);
    }
  }

  /** The last part of `s.split(c)`, i.e. `s.split(c)[-1]` in Python. */
  function LastPart(s: string, c: char): (r: string)
    ensures |r| <= |s| && r == s[|s| - |r|..]
    ensures c !in r
    ensures |r| < |s| ==> s[|s| - |r| - 1] == c
    ensures c !in s ==> r == s
  {
    var parts := Split(s, [c]);
    NotContainsChar(parts[|parts| - 1], c);
    if |parts| >= 2 then
      JoinLast(parts, [c]);
      parts[|parts| - 1]
    else
      parts[0]
  }

  /** Appending a separator and a separator-free `y` appends `y` as one more part. */
  lemma {:induction false} SplitAppend(pre: string, c: char, y: string)
    requires c !in y
    ensures Split(pre + [c] + y, [c]) == Split(pre, [c]) + [y]
    decreases |pre|
  {
    var b := Before(pre, c);
    if |b| == |pre| {
      assert pre == b;
      SplitAppendLast(pre, c, y);
    } else {
      var rest := pre[|b| + 1..];
      assert pre[|b|] == c && c !in pre[..|b|] by {
        assert pre[..|b|] == b;
      }
      SplitAppendStep(pre, c, y, |b|);
      SplitAppend(rest, c, y);
    }
  }

  lemma SplitAppendLast(pre: string, c: char, y: string)
    requires c !in y && c !in pre
    ensures Split(pre + [c] + y, [c]) == Split(pre, [c]) + [y]
  {
    var s := pre + [c] + y;
    assert s[..|pre|] == pre && s[|pre| + 1..] == y;
    assert s[|pre|..|pre| + 1] == [c];
    SplitAt(s, [c], |pre|);
    SplitWhole(y, [c]);
    SplitWhole(pre, [c]);
  }

  lemma SplitAppendStep(pre: string, c: char, y: string, i: nat)
    requires i < |pre| && pre[i] == c && c !in pre[..i]
    ensures Split(pre + [c] + y, [c]) == [pre[..i]] + Split(pre[i + 1..] + [c] + y, [c])
    ensures Split(pre, [c]) == [pre[..i]] + Split(pre[i + 1..], [c])
  {
    var s := pre + [c] + y;
    assert s[..i] == pre[..i] && s[i..i + 1] == [c];
    assert s[i + 1..] == pre[i + 1..] + [c] + y;
    assert pre[i..i + 1] == [c];
    SplitAt(s, [c], i);
    SplitAt(pre, [c], i);
  }

  /** Whatever precedes it, the last part of `pre + [c] + y` is `y` when `y`
      holds no `c`. */
  lemma LastPartAfter(pre: string, c: char, y: string)
    requires c !in y
    ensures LastPart(pre + [c] + y, c) == y
  {
    SplitAppend(pre, c, y);
  }

  /** Characters Python's `str.isspace` accepts (and `str.strip` removes). */
  predicate IsPyWhitespace(c: char) {
    ('\t' <= c <= '\r') || ('\U{1C}' <= c <= ' ') || c == '\U{85}' || c == '\U{A0}' || c == '\U{1680}'
    || ('\U{2000}' <= c <= '\U{200A}') || c == '\U{2028}' || c == '\U{2029}' || c == '\U{202F}'
    || c == '\U{205F}' || c == '\U{3000}'
  }

  /** Characters JavaScript's `String.prototype.trim` removes: WhiteSpace and
      LineTerminator of ECMA-262. */
  predicate IsJsWhitespace(c: char) {
    ('\t' <= c <= '\r') || c == ' ' || c == '\U{A0}' || c == '\U{1680}'
    || ('\U{2000}' <= c <= '\U{200A}') || c == '\U{2028}' || c == '\U{2029}' || c == '\U{202F}'
    || c == '\U{205F}' || c == '\U{3000}' || c == '\U{FEFF}'
  }

  /** How many whitespace characters `s` starts with. */
  function Leading(s: string, ws: char -> bool): (n: nat)
    ensures n <= |s|
  {
    if s != [] && ws(s[0]) then 1 + Leading(s[1..], ws) else 0
  }

  /** Where the whitespace `s` ends with begins. */
  function TrailingStart(s: string, ws: char -> bool): (m: nat)
    ensures m <= |s|
  {
    if s != [] && ws(s[|s| - 1]) then TrailingStart(s[..|s| - 1], ws) else |s|
  }

  /** `s.strip()` / `s.trim()` with the language's notion of whitespace. */
  function Trim(s: string, ws: char -> bool): string {
    var l := s[Leading(s, ws)..];
    l[..TrailingStart(l, ws)]
  }

  /** Leading counts exactly the whitespace at the start. */
  lemma {:induction false} LeadingSpec(s: string, ws: char -> bool)
    ensures var n := Leading(s, ws);
      (forall k :: 0 <= k < n ==> ws(s[k])) && (n < |s| ==> !ws(s[n]))
  {
    if s != [] && ws(s[0]) {
      LeadingSpec(s[1..], ws);
      forall k | 1 <= k < Leading(s, ws) ensures ws(s[k]) {
        assert s[k] == s[1..][k - 1];
      }
    }
  }

  /** TrailingStart finds exactly the whitespace at the end. */
  lemma {:induction false} TrailingStartSpec(s: string, ws: char -> bool)
    ensures var m := TrailingStart(s, ws);
      (forall k :: m <= k < |s| ==> ws(s[k])) && (0 < m ==> !ws(s[m - 1]))
  {
    if s != [] && ws(s[|s| - 1]) {
      var t := s[..|s| - 1];
      TrailingStartSpec(t, ws);
      forall k | TrailingStart(s, ws) <= k < |s| - 1 ensures ws(s[k]) {
        assert s[k] == t[k];
      }
    }
  }

  /** `r` is the slice of `s` starting at `i`, and only whitespace surrounds it. */
  predicate TrimmedAt(s: string, r: string, i: int, ws: char -> bool) {
    0 <= i <= |s| - |r| && r == s[i..i + |r|]
    && (forall k :: 0 <= k < i ==> ws(s[k]))
    && (forall k :: i + |r| <= k < |s| ==> ws(s[k]))
  }

  /** The trimmed text is a slice of `s` with only whitespace on either side
      of it and no whitespace at its ends. */
  lemma TrimSpec(s: string, ws: char -> bool)
    ensures exists i :: TrimmedAt(s, Trim(s, ws), i, ws)
    ensures var r := Trim(s, ws); r != [] ==> !ws(r[0]) && !ws(r[|r| - 1])
  {
    LeadingSpec(s, ws);
    var n := Leading(s, ws);
    var l := s[n..];
    TrailingStartSpec(l, ws);
    var m := TrailingStart(l, ws);
    var r := l[..m];
    assert r == Trim(s, ws);
    assert r == s[n..n + m];
    forall k | n + m <= k < |s| ensures ws(s[k]) {
      assert s[k] == l[k - n];
    }
    assert r != [] ==> r[0] == s[n];
    assert TrimmedAt(s, r, n, ws);
  }

  /** Trimming twice changes nothing. */
  lemma TrimIdempotent(s: string, ws: char -> bool)
    ensures Trim(Trim(s, ws), ws) == Trim(s, ws)
  {
    var r := Trim(s, ws);
    TrimSpec(s, ws);
    assert Leading(r, ws) == 0;
    assert r[0..] == r;
    assert TrailingStart(r, ws) == |r|;
    assert r[..|r|] == r;
  }
}
