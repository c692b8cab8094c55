/**
 * The three regular expressions the version scripts use on source text, read the way JavaScript's
 * backtracking matcher reads them. They come in two shapes: `LIT\s*SEP\s*[Q][^Q]+[Q]`
 * (bump-version, the whole assignment, once for the app version and once for the manifest) and
 * `LIT\s*SEP\s*[Q]([^Q]+)` (check-versions, the value only), with `Q` the set of quote
 * characters. Neither needs backtracking: `\s*` is followed by a character that is not
 * whitespace and `[^Q]+` by a quote, so each greedy run is the only one that can succeed, and
 * `match`, `test` and `replace` all use the leftmost start position that succeeds.
 */
module Patterns {
  import opened Wrappers
  import opened Strings

  datatype Pattern = Pattern(lit: string, sep: char, quotes: set<char>)

  /** `PUNCHBUGGY_APP_VERSION\s*=\s*['"]…` */
  const APP_VERSION := Pattern("PUNCHBUGGY_APP_VERSION", '=', {'\'', '"'})

  /** `"version"\s*:\s*"…` */
  const MANIFEST_VERSION := Pattern("\"version\"", ':', {'"'})

  /** `\s*` from `i`: the first position at or after `i` that is not whitespace. */
  function SkipSpaces(s: string, i: nat): (k: nat)
    requires i <= |s|
    ensures i <= k <= |s|
    ensures forall m :: i <= m < k ==> IsJsSpace(s[m])
    ensures k < |s| ==> !IsJsSpace(s[k])
    decreases |s| - i
  {
    if i == |s| || !IsJsSpace(s[i]) then i else SkipSpaces(s, i + 1)
  }

  /** `[^Q]*` from `i`: the first position at or after `i` that holds a character of `stop`. */
  function RunUntil(s: string, i: nat, stop: set<char>): (k: nat)
    requires i <= |s|
    ensures i <= k <= |s|
    ensures forall m :: i <= m < k ==> s[m] !in stop
    ensures k < |s| ==> s[k] in stop
    decreases |s| - i
  {
    if i == |s| || s[i] in stop then i else RunUntil(s, i + 1, stop)
  }

  /** Where the quoted value starts when `LIT\s*SEP\s*[Q]` matches at `j`. */
  function ValueStart(p: Pattern, s: string, j: nat): (r: Option<nat>)
    requires j <= |s|
    ensures r.Some? ==> j + |p.lit| < r.value <= |s| && s[r.value - 1] in p.quotes
    ensures r.Some? ==> s[j..j + |p.lit|] == p.lit
  {
    if !StartsWith(s[j..], p.lit) then None
    else
      var k1 := SkipSpaces(s, j + |p.lit|);
      if k1 == |s| || s[k1] != p.sep then None
      else
        var k2 := SkipSpaces(s, k1 + 1);
        if k2 == |s| || s[k2] !in p.quotes then None else Some(k2 + 1)
  }

  /** The value `LIT\s*SEP\s*[Q]([^Q]+)` captures at `j`, as the positions it spans. */
  function CaptureAt(p: Pattern, s: string, j: nat): (r: Option<(nat, nat)>)
    requires j <= |s|
    ensures r.Some? ==> j < r.value.0 < r.value.1 <= |s|
    ensures r.Some? ==> forall m :: r.value.0 <= m < r.value.1 ==> s[m] !in p.quotes
    ensures r.Some? && r.value.1 < |s| ==> s[r.value.1] in p.quotes
  {
    match ValueStart(p, s, j)
    case None => None
    case Some(a) =>
      var e := RunUntil(s, a, p.quotes);
      if e > a then Some((a, e)) else None
  }

  /** Where `LIT\s*SEP\s*[Q][^Q]+[Q]` ends when it matches at `j`. */
  function MatchEnd(p: Pattern, s: string, j: nat): (r: Option<nat>)
    requires j <= |s|
    ensures r.Some? <==> CaptureAt(p, s, j).Some? && CaptureAt(p, s, j).value.1 < |s|
    ensures r.Some? ==> r.value == CaptureAt(p, s, j).value.1 + 1
  {
    match CaptureAt(p, s, j)
    case None => None
    case Some((a, e)) => if e < |s| then Some(e + 1) else None
  }

  /** The leftmost full match at or after `j`: its start and its end. */
  function FirstMatch(p: Pattern, s: string, j: nat): (r: Option<(nat, nat)>)
    requires j <= |s|
    ensures r.Some? ==> j <= r.value.0 <= |s| && MatchEnd(p, s, r.value.0) == Some(r.value.1)
    ensures r.Some? ==> forall m :: j <= m < r.value.0 ==> MatchEnd(p, s, m).None?
    ensures r.None? ==> forall m :: j <= m <= |s| ==> MatchEnd(p, s, m).None?
    decreases |s| - j
  {
    var e := MatchEnd(p, s, j);
    if e.Some? then Some((j, e.value))
    else if j == |s| then None
    else FirstMatch(p, s, j + 1)
  }

  predicate Captures(p: Pattern, s: string, j: nat)
    requires j <= |s|
  {
    CaptureAt(p, s, j).Some?
  }

  /** Where the leftmost capture at or after `j` starts. */
  function FirstCapture(p: Pattern, s: string, j: nat): (r: Option<nat>)
    requires j <= |s|
    ensures r.Some? ==> j <= r.value <= |s| && Captures(p, s, r.value)
    ensures r.Some? ==> forall m :: j <= m < r.value ==> !Captures(p, s, m)
    ensures r.None? ==> forall m :: j <= m <= |s| ==> !Captures(p, s, m)
    decreases |s| - j
  {
    if Captures(p, s, j) then Some(j)
    else if j == |s| then None
    else FirstCapture(p, s, j + 1)
  }

  /** The text of the first group of the leftmost capture, as `s.match(re)[1]` reads it. */
  function CapturedText(p: Pattern, s: string): (r: Option<string>)
    ensures r.Some? ==> |r.value| > 0 && forall k :: 0 <= k < |r.value| ==> r.value[k] !in p.quotes
  {
    match FirstCapture(p, s, 0)
    case None => None
    case Some(j) =>
      var c := CaptureAt(p, s, j).value;
      Some(s[c.0..c.1])
  }

  /** There is no captured text exactly when the pattern captures nowhere in the text. */
  lemma CapturedTextMissing(p: Pattern, s: string)
    ensures CapturedText(p, s).None? <==> forall m :: 0 <= m <= |s| ==> !Captures(p, s, m)
  {
  }

  /**
   * What the argument below needs of a pattern: a literal of two or more characters holding no
   * whitespace and no separator, and a separator and quotes that are not whitespace.
   */
  predicate WellFormed(p: Pattern) {
    && |p.lit| >= 2
    && (forall k :: 0 <= k < |p.lit| ==> !IsJsSpace(p.lit[k]) && p.lit[k] != p.sep)
    && !IsJsSpace(p.sep) && p.sep !in p.quotes
    && (forall q :: q in p.quotes ==> !IsJsSpace(q))
  }

  /** Printable ASCII characters other than the space are not whitespace. */
  lemma PrintableIsNotSpace(c: char)
    requires '!' <= c <= '~'
    ensures !IsJsSpace(c)
  {
  }

  lemma AppVersionWellFormed()
    ensures WellFormed(APP_VERSION)
  {
    var lit := APP_VERSION.lit;
    forall k | 0 <= k < |lit| ensures !IsJsSpace(lit[k]) && lit[k] != '=' {
      assert 'A' <= lit[k] <= 'Z' || lit[k] == '_';
      PrintableIsNotSpace(lit[k]);
    }
    PrintableIsNotSpace('\'');
    PrintableIsNotSpace('"');
    PrintableIsNotSpace('=');
  }

  lemma ManifestVersionWellFormed()
    ensures WellFormed(MANIFEST_VERSION)
  {
    var lit := MANIFEST_VERSION.lit;
    forall k | 0 <= k < |lit| ensures !IsJsSpace(lit[k]) && lit[k] != ':' {
      assert 'a' <= lit[k] <= 'z' || lit[k] == '"';
      PrintableIsNotSpace(lit[k]);
    }
    PrintableIsNotSpace('"');
    PrintableIsNotSpace(':');
  }

  /** `SkipSpaces` is determined by the whitespace it crosses and the character that stops it. */
  lemma SkipSpacesAt(s: string, i: nat, k: nat)
    requires i <= k < |s|
    requires forall m :: i <= m < k ==> IsJsSpace(s[m])
    requires !IsJsSpace(s[k])
    ensures SkipSpaces(s, i) == k
  {
  }

  /** `RunUntil` is determined by the characters it crosses and the one that stops it. */
  lemma RunUntilAt(s: string, i: nat, k: nat, stop: set<char>)
    requires i <= k <= |s|
    requires forall m :: i <= m < k ==> s[m] !in stop
    requires k < |s| ==> s[k] in stop
    ensures RunUntil(s, i, stop) == k
  {
  }

  /** Equal prefixes agree at every position below their length. */
  lemma PrefixAgrees(r: string, s: string, n: nat, k: nat)
    requires n <= |r| && n <= |s| && r[..n] == s[..n] && k < n
    ensures r[k] == s[k]
  {
    assert r[k] == r[..n][k] && s[k] == s[..n][k];
  }

  lemma LiteralLocal(p: Pattern, r: string, s: string, m: nat, a: nat)
    requires m <= |r| && m <= |s| && a <= |s| && a <= |r| && m + |p.lit| <= a
    requires StartsWith(r[m..], p.lit)
    requires r[..a] == s[..a]
    ensures StartsWith(s[m..], p.lit)
  {
    var n := m + |p.lit|;
    assert r[m..][..|p.lit|] == r[m..n] == r[..a][m..n];
    assert s[m..][..|p.lit|] == s[m..n] == s[..a][m..n];
  }

  lemma SkipSpacesLocal(r: string, s: string, i: nat, a: nat)
    requires i <= |r| && i <= |s| && a <= |s| && a <= |r| && r[..a] == s[..a]
    requires SkipSpaces(r, i) < a
    ensures SkipSpaces(s, i) == SkipSpaces(r, i)
  {
    var k := SkipSpaces(r, i);
    forall m | i <= m <= k ensures s[m] == r[m] {
      PrefixAgrees(r, s, a, m);
    }
    SkipSpacesAt(s, i, k);
  }

  /** The header of a match is read from the text before its value starts. */
  lemma ValueStartLocal(p: Pattern, r: string, s: string, m: nat, a: nat)
    requires m <= |r| && m <= |s| && a <= |s|
    requires ValueStart(p, r, m) == Some(a)
    requires r[..a] == s[..a]
    ensures ValueStart(p, s, m) == Some(a)
  {
    var n := m + |p.lit|;
    LiteralLocal(p, r, s, m, a);
    var k1 := SkipSpaces(r, n);
    SkipSpacesLocal(r, s, n, a);
    PrefixAgrees(r, s, a, k1);
    var k2 := SkipSpaces(r, k1 + 1);
    SkipSpacesLocal(r, s, k1 + 1, a);
    PrefixAgrees(r, s, a, k2);
  }

  /**
   * In a text that holds the literal at `i`, a header starting before `i` ends before the end of
   * that literal: the literal's characters can be neither the whitespace nor the separator of a
   * header.
   */
  lemma HeaderEndsEarly(p: Pattern, r: string, m: nat, i: nat)
    requires WellFormed(p)
    requires m < i && i + |p.lit| <= |r| && r[i..i + |p.lit|] == p.lit
    requires ValueStart(p, r, m).Some?
    ensures ValueStart(p, r, m).value < i + |p.lit|
  {
    var n := m + |p.lit|;
    var k1 := SkipSpaces(r, n);
    var k2 := SkipSpaces(r, k1 + 1);
    assert ValueStart(p, r, m) == Some(k2 + 1);
    var x := if i < n then n else i;
    assert r[x] == p.lit[x - i];
    assert !IsJsSpace(r[x]) && r[x] != p.sep;
  }

  /**
   * Two texts that agree up to the end of a literal at `i`, and each hold a quote somewhere
   * after it: a capture starting before `i` in the first is a full match in both.
   */
  lemma CaptureTransfers(p: Pattern, r: string, s: string, m: nat, i: nat)
    requires WellFormed(p)
    requires m < i && i + |p.lit| <= |r| && i + |p.lit| <= |s|
    requires r[..i + |p.lit|] == s[..i + |p.lit|] && r[i..i + |p.lit|] == p.lit
    requires RunUntil(r, i + |p.lit|, p.quotes) < |r| && RunUntil(s, i + |p.lit|, p.quotes) < |s|
    requires CaptureAt(p, r, m).Some?
    ensures MatchEnd(p, r, m).Some? && MatchEnd(p, s, m).Some?
  {
    var n := i + |p.lit|;
    HeaderEndsEarly(p, r, m, i);
    var a := ValueStart(p, r, m).value;
    assert r[..a] == s[..a] by {
      assert r[..a] == r[..n][..a] && s[..a] == s[..n][..a];
    }
    ValueStartLocal(p, r, s, m, a);
    RunsAgree(r, s, a, n, p.quotes);
  }

  /**
   * Two texts that agree below `n`, each holding a stop character at or after `n`: a run from
   * `a < n` ends inside both, and is empty in one exactly when it is empty in the other.
   */
  lemma RunsAgree(r: string, s: string, a: nat, n: nat, stop: set<char>)
    requires a < n <= |r| && n <= |s| && r[..n] == s[..n]
    requires RunUntil(r, n, stop) < |r| && RunUntil(s, n, stop) < |s|
    ensures RunUntil(r, a, stop) < |r| && RunUntil(s, a, stop) < |s|
    ensures RunUntil(r, a, stop) > a <==> RunUntil(s, a, stop) > a
  {
    var e := RunUntil(r, a, stop);
    if e < n {
      assert forall k :: a <= k < e ==> s[k] == r[k] by {
        forall k | a <= k < e ensures s[k] == r[k] {
          assert s[k] == s[..n][k] && r[k] == r[..n][k];
        }
      }
      assert s[e] == s[..n][e] && r[e] == r[..n][e];
      RunUntilAt(s, a, e, stop);
    } else {
      var er := RunUntil(r, n, stop);
      var es := RunUntil(s, n, stop);
      assert forall k :: a <= k < n ==> s[k] !in stop by {
        forall k | a <= k < n ensures s[k] !in stop {
          assert s[k] == s[..n][k] && r[k] == r[..n][k];
        }
      }
      RunUntilAt(r, a, er, stop);
      RunUntilAt(s, a, es, stop);
    }
  }

  predicate AllSpaces(t: string) {
    forall k :: 0 <= k < |t| ==> IsJsSpace(t[k])
  }

  /** The text `replace` puts in place of a match: `LIT sp1 SEP sp2 Q value Q`. */
  function Assignment(p: Pattern, sp1: string, sp2: string, q: char, v: string): (t: string)
    ensures |t| == |p.lit| + |sp1| + |sp2| + |v| + 3
  {
    p.lit + sp1 + [p.sep] + sp2 + [q] + v + [q]
  }

  /** What makes an assignment match the pattern again, with `v` as its value. */
  predicate Rematches(p: Pattern, sp1: string, sp2: string, q: char, v: string) {
    && WellFormed(p) && AllSpaces(sp1) && AllSpaces(sp2) && q in p.quotes
    && |v| > 0 && (forall k :: 0 <= k < |v| ==> v[k] !in p.quotes)
  }

  /** `replace` on the leftmost match; `None` when `test` fails. */
  function ReplaceFirst(p: Pattern, s: string, t: string): Option<string> {
    match FirstMatch(p, s, 0)
    case None => None
    case Some((i, e)) => Some(s[..i] + t + s[e..])
  }

  /** A run stops at the first character of `stop` it meets. */
  lemma RunStopsBy(s: string, i: nat, x: nat, stop: set<char>)
    requires i <= x < |s| && s[x] in stop
    ensures RunUntil(s, i, stop) <= x
  {
  }

  /** Where each part of an assignment sits. */
  lemma AssignmentLayout(p: Pattern, sp1: string, sp2: string, q: char, v: string)
    ensures var t := Assignment(p, sp1, sp2, q, v);
      var n := |p.lit|;
      var k1 := n + |sp1|;
      var k2 := k1 + 1 + |sp2|;
      var a := k2 + 1;
      && (forall k :: 0 <= k < n ==> t[k] == p.lit[k])
      && (forall k :: n <= k < k1 ==> t[k] == sp1[k - n])
      && t[k1] == p.sep
      && (forall k :: k1 < k < k2 ==> t[k] == sp2[k - k1 - 1])
      && t[k2] == q
      && (forall k :: a <= k < a + |v| ==> t[k] == v[k - a])
      && t[a + |v|] == q
  {
  }

  /** A character of the middle part of a concatenation. */
  lemma MiddleAt(pre: string, t: string, post: string, k: nat)
    requires k < |t|
    ensures (pre + t + post)[|pre| + k] == t[k]
  {
  }

  /** The characters of an assignment as they sit in a larger text. */
  lemma HeaderChars(p: Pattern, pre: string, sp1: string, sp2: string, q: char, v: string, post: string)
    requires Rematches(p, sp1, sp2, q, v)
    ensures var r := pre + Assignment(p, sp1, sp2, q, v) + post;
      var i := |pre|;
      var n := i + |p.lit|;
      var k1 := n + |sp1|;
      var k2 := k1 + 1 + |sp2|;
      && k2 < |r|
      && StartsWith(r[i..], p.lit)
      && (forall k :: n <= k < k1 ==> IsJsSpace(r[k]))
      && !IsJsSpace(r[k1]) && r[k1] == p.sep
      && (forall k :: k1 + 1 <= k < k2 ==> IsJsSpace(r[k]))
      && !IsJsSpace(r[k2]) && r[k2] == q
  {
    var t := Assignment(p, sp1, sp2, q, v);
    var r := pre + t + post;
    var i := |pre|;
    var n := i + |p.lit|;
    var k1 := n + |sp1|;
    var k2 := k1 + 1 + |sp2|;
    AssignmentLayout(p, sp1, sp2, q, v);
    assert StartsWith(r[i..], p.lit) by {
      forall k | 0 <= k < |p.lit| ensures r[i..][k] == p.lit[k] {
        MiddleAt(pre, t, post, k);
      }
    }
    forall k | n <= k < k1 ensures IsJsSpace(r[k]) {
      MiddleAt(pre, t, post, k - i);
    }
    MiddleAt(pre, t, post, k1 - i);
    forall k | k1 + 1 <= k < k2 ensures IsJsSpace(r[k]) {
      MiddleAt(pre, t, post, k - i);
    }
    MiddleAt(pre, t, post, k2 - i);
  }

  lemma AssignmentHeader(p: Pattern, pre: string, sp1: string, sp2: string, q: char, v: string, post: string)
    requires Rematches(p, sp1, sp2, q, v)
    ensures ValueStart(p, pre + Assignment(p, sp1, sp2, q, v) + post, |pre|) ==
      Some(|pre| + |p.lit| + |sp1| + |sp2| + 2)
  {
    var r := pre + Assignment(p, sp1, sp2, q, v) + post;
    var n := |pre| + |p.lit|;
    var k1 := n + |sp1|;
    HeaderChars(p, pre, sp1, sp2, q, v, post);
    SkipSpacesAt(r, n, k1);
    SkipSpacesAt(r, k1 + 1, k1 + 1 + |sp2|);
  }

  lemma AssignmentValue(p: Pattern, pre: string, sp1: string, sp2: string, q: char, v: string, post: string)
    requires Rematches(p, sp1, sp2, q, v)
    ensures var r := pre + Assignment(p, sp1, sp2, q, v) + post;
      var a := |pre| + |p.lit| + |sp1| + |sp2| + 2;
      && a + |v| < |r|
      && RunUntil(r, a, p.quotes) == a + |v|
      && r[a..a + |v|] == v
  {
    var t := Assignment(p, sp1, sp2, q, v);
    var r := pre + t + post;
    var i := |pre|;
    var a := i + |p.lit| + |sp1| + |sp2| + 2;
    AssignmentLayout(p, sp1, sp2, q, v);
    forall k | a <= k < a + |v| ensures r[k] == v[k - a] {
      MiddleAt(pre, t, post, k - i);
    }
    MiddleAt(pre, t, post, a + |v| - i);
    RunUntilAt(r, a, a + |v|, p.quotes);
    assert r[a..a + |v|] == v;
  }

  /** An assignment written at `|pre|` is a full match there, and its value is `v`. */
  lemma AssignmentMatches(p: Pattern, pre: string, sp1: string, sp2: string, q: char, v: string, post: string)
    requires Rematches(p, sp1, sp2, q, v)
    ensures var r := pre + Assignment(p, sp1, sp2, q, v) + post;
      var a := |pre| + |p.lit| + |sp1| + |sp2| + 2;
      && CaptureAt(p, r, |pre|) == Some((a, a + |v|))
      && MatchEnd(p, r, |pre|) == Some(|pre| + |Assignment(p, sp1, sp2, q, v)|)
      && r[a..a + |v|] == v
  {
    AssignmentHeader(p, pre, sp1, sp2, q, v, post);
    AssignmentValue(p, pre, sp1, sp2, q, v, post);
  }

  /** The same capture, for the spliced text `r` and the value start `a` given by name. */
  lemma AssignmentCaptures(p: Pattern, pre: string, sp1: string, sp2: string, q: char, v: string, post: string, r: string, a: nat)
    requires Rematches(p, sp1, sp2, q, v)
    requires r == pre + Assignment(p, sp1, sp2, q, v) + post
    requires a == |pre| + |p.lit| + |sp1| + |sp2| + 2
    ensures CaptureAt(p, r, |pre|) == Some((a, a + |v|)) && r[a..a + |v|] == v
  {
    AssignmentHeader(p, pre, sp1, sp2, q, v, post);
    AssignmentValue(p, pre, sp1, sp2, q, v, post);
  }

  /** If nothing matches before `i` and something matches at `i`, the leftmost match is at `i`. */
  lemma FirstMatchIs(p: Pattern, r: string, i: nat, e: nat)
    requires i <= |r| && MatchEnd(p, r, i) == Some(e)
    requires forall m :: 0 <= m < i ==> MatchEnd(p, r, m).None?
    ensures FirstMatch(p, r, 0) == Some((i, e))
  {
  }

  lemma FirstCaptureIs(p: Pattern, r: string, i: nat)
    requires i <= |r| && Captures(p, r, i)
    requires forall m :: 0 <= m < i ==> !Captures(p, r, m)
    ensures FirstCapture(p, r, 0) == Some(i)
  {
  }

  /** The replaced text agrees with the original up to the end of the literal at `i`. */
  lemma ReplacedPrefix(p: Pattern, s: string, i: nat, e: nat, t: string)
    requires i <= e <= |s| && ValueStart(p, s, i).Some?
    requires |p.lit| <= |t| && t[..|p.lit|] == p.lit
    ensures var r := s[..i] + t + s[e..];
      var n := i + |p.lit|;
      && n <= |r| && n <= |s| && r[..n] == s[..n] && r[i..n] == p.lit
  {
    var r := s[..i] + t + s[e..];
    var n := i + |p.lit|;
    assert s[i..n] == p.lit;
    assert r[..n] == s[..i] + p.lit;
    assert s[..n] == s[..i] + s[i..n];
  }

  /** Both texts hold a quote at or after the end of the literal at `i`. */
  lemma QuotesAfterLiteral(p: Pattern, s: string, i: nat, e: nat, sp1: string, sp2: string, q: char, v: string)
    requires q in p.quotes
    requires i <= e <= |s| && ValueStart(p, s, i).Some?
    ensures var r := s[..i] + Assignment(p, sp1, sp2, q, v) + s[e..];
      var n := i + |p.lit|;
      && n <= |r| && n <= |s|
      && RunUntil(r, n, p.quotes) < |r| && RunUntil(s, n, p.quotes) < |s|
  {
    var t := Assignment(p, sp1, sp2, q, v);
    var r := s[..i] + t + s[e..];
    var n := i + |p.lit|;
    var vs := ValueStart(p, s, i).value;
    RunStopsBy(s, n, vs - 1, p.quotes);
    var k2 := |p.lit| + |sp1| + 1 + |sp2|;
    AssignmentLayout(p, sp1, sp2, q, v);
    MiddleAt(s[..i], t, s[e..], k2);
    RunStopsBy(r, n, i + k2, p.quotes);
  }

  /** Nothing in the replaced text matches before the assignment. */
  lemma NoEarlierMatch(p: Pattern, s: string, i: nat, e: nat, sp1: string, sp2: string, q: char, v: string)
    requires Rematches(p, sp1, sp2, q, v)
    requires i <= e <= |s| && ValueStart(p, s, i).Some?
    requires forall m :: 0 <= m < i ==> MatchEnd(p, s, m).None?
    ensures var r := s[..i] + Assignment(p, sp1, sp2, q, v) + s[e..];
      forall m :: 0 <= m < i ==> !Captures(p, r, m) && MatchEnd(p, r, m).None?
  {
    var t := Assignment(p, sp1, sp2, q, v);
    var r := s[..i] + t + s[e..];
    AssignmentLayout(p, sp1, sp2, q, v);
    assert t[..|p.lit|] == p.lit;
    ReplacedPrefix(p, s, i, e, t);
    QuotesAfterLiteral(p, s, i, e, sp1, sp2, q, v);
    forall m | 0 <= m < i
      ensures !Captures(p, r, m) && MatchEnd(p, r, m).None?
    {
      if CaptureAt(p, r, m).Some? {
        CaptureTransfers(p, r, s, m, i);
      }
    }
  }

  lemma ReplacedMatchEnd(p: Pattern, s: string, i: nat, e: nat, sp1: string, sp2: string, q: char, v: string)
    requires Rematches(p, sp1, sp2, q, v)
    requires i <= e <= |s|
    ensures var t := Assignment(p, sp1, sp2, q, v);
      && MatchEnd(p, s[..i] + t + s[e..], i) == Some(i + |t|)
      && Captures(p, s[..i] + t + s[e..], i)
  {
    AssignmentMatches(p, s[..i], sp1, sp2, q, v, s[e..]);
  }

  /**
   * Once `replace` has put an assignment in place of the leftmost match, the leftmost match of
   * the result is that assignment: nothing before it can match, since whatever matched there
   * would have matched before the original match.
   */
  lemma ReplacedMatchAt(p: Pattern, s: string, i: nat, e: nat, sp1: string, sp2: string, q: char, v: string)
    requires Rematches(p, sp1, sp2, q, v)
    requires i <= |s| && MatchEnd(p, s, i) == Some(e)
    requires forall m :: 0 <= m < i ==> MatchEnd(p, s, m).None?
    ensures var t := Assignment(p, sp1, sp2, q, v);
      FirstMatch(p, s[..i] + t + s[e..], 0) == Some((i, i + |t|))
  {
    var t := Assignment(p, sp1, sp2, q, v);
    ReplacedMatchEnd(p, s, i, e, sp1, sp2, q, v);
    NoEarlierMatch(p, s, i, e, sp1, sp2, q, v);
    FirstMatchIs(p, s[..i] + t + s[e..], i, i + |t|);
  }

  lemma ReplacedCaptureAt(p: Pattern, s: string, i: nat, e: nat, sp1: string, sp2: string, q: char, v: string)
    requires Rematches(p, sp1, sp2, q, v)
    requires i <= |s| && MatchEnd(p, s, i) == Some(e)
    requires forall m :: 0 <= m < i ==> MatchEnd(p, s, m).None?
    ensures FirstCapture(p, s[..i] + Assignment(p, sp1, sp2, q, v) + s[e..], 0) == Some(i)
  {
    var t := Assignment(p, sp1, sp2, q, v);
    ReplacedMatchEnd(p, s, i, e, sp1, sp2, q, v);
    NoEarlierMatch(p, s, i, e, sp1, sp2, q, v);
    FirstCaptureIs(p, s[..i] + t + s[e..], i);
  }

  /** Replacing the leftmost match by an assignment that matches again is idempotent. */
  lemma ReplaceFirstIdempotent(p: Pattern, s: string, sp1: string, sp2: string, q: char, v: string)
    requires Rematches(p, sp1, sp2, q, v)
    ensures var t := Assignment(p, sp1, sp2, q, v);
      ReplaceFirst(p, s, t).Some? ==> ReplaceFirst(p, ReplaceFirst(p, s, t).value, t) == ReplaceFirst(p, s, t)
  {
    var t := Assignment(p, sp1, sp2, q, v);
    if FirstMatch(p, s, 0).Some? {
      var (i, e) := FirstMatch(p, s, 0).value;
      var r := s[..i] + t + s[e..];
      ReplacedMatchAt(p, s, i, e, sp1, sp2, q, v);
      assert r[..i] == s[..i];
      assert r[i + |t|..] == s[e..];
      assert r[..i] + t + r[i + |t|..] == r;
    }
  }

  lemma CapturedTextFrom(p: Pattern, r: string, i: nat, a: nat, v: string)
    requires i <= |r| && FirstCapture(p, r, 0) == Some(i)
    requires CaptureAt(p, r, i) == Some((a, a + |v|)) && r[a..a + |v|] == v
    ensures CapturedText(p, r) == Some(v)
  {
    var c := CaptureAt(p, r, i).value;
    assert c == (a, a + |v|);
    assert CapturedText(p, r) == Some(r[c.0..c.1]);
  }

  /** When the leftmost capture is at an assignment written between `pre` and `post`, its text is the value. */
  lemma SplicedText(p: Pattern, pre: string, post: string, sp1: string, sp2: string, q: char, v: string)
    requires Rematches(p, sp1, sp2, q, v)
    requires FirstCapture(p, pre + Assignment(p, sp1, sp2, q, v) + post, 0) == Some(|pre|)
    ensures CapturedText(p, pre + Assignment(p, sp1, sp2, q, v) + post) == Some(v)
  {
    var r := pre + Assignment(p, sp1, sp2, q, v) + post;
    var a := |pre| + |p.lit| + |sp1| + |sp2| + 2;
    AssignmentCaptures(p, pre, sp1, sp2, q, v, post, r, a);
    CapturedTextFrom(p, r, |pre|, a, v);
  }

  /** The value `match` reads from the replaced text is the one written. */
  lemma ReplacedValue(p: Pattern, s: string, sp1: string, sp2: string, q: char, v: string)
    requires Rematches(p, sp1, sp2, q, v)
    requires FirstMatch(p, s, 0).Some?
    ensures CapturedText(p, ReplaceFirst(p, s, Assignment(p, sp1, sp2, q, v)).value) == Some(v)
  {
    var (i, e) := FirstMatch(p, s, 0).value;
    ReplacedCaptureAt(p, s, i, e, sp1, sp2, q, v);
    SplicedText(p, s[..i], s[e..], sp1, sp2, q, v);
  }
}
