/**
 * The version audit: it reads the app-version script (the first of three candidate paths that
 * can be read and is not empty), the public web manifest through `JSON.parse` and the first
 * changelog heading, and reports the versions consistent when at most one distinct version was
 * found among those present.
 */
module CheckVersions {
  import opened Wrappers
  import opened Strings
  import opened Json
  import opened Patterns
  import BumpVersion

  const APP_CANDIDATES: seq<string> := ["public/app-version.js", "app-version.js", "src/app-version.js"]
  const MANIFEST_FILE := "public/manifest.webmanifest"
  const CHANGELOG_FILE := "CHANGELOG.md"

  /** `readFile`: the text of a file, or `null` when it cannot be read. */
  function ReadFile(files: map<string, string>, path: string): Option<string> {
    if path in files then Some(files[path]) else None
  }

  /** Truthiness of what `readFile` returns: `null` and the empty text are falsy. */
  predicate TruthyText(t: Option<string>) {
    t.Some? && t.value != ""
  }

  /** The first candidate whose read is truthy, or the number of candidates when there is none. */
  function FirstReadable(files: map<string, string>, candidates: seq<string>): (k: nat)
    ensures k <= |candidates|
    ensures forall m :: 0 <= m < k ==> !TruthyText(ReadFile(files, candidates[m]))
    ensures k < |candidates| ==> TruthyText(ReadFile(files, candidates[k]))
  {
    if |candidates| == 0 then 0
    else if TruthyText(ReadFile(files, candidates[0])) then 0
    else 1 + FirstReadable(files, candidates[1..])
  }

  lemma FirstReadableAt(files: map<string, string>, candidates: seq<string>, k: nat)
    requires k < |candidates| && TruthyText(ReadFile(files, candidates[k]))
    requires forall m :: 0 <= m < k ==> !TruthyText(ReadFile(files, candidates[m]))
    ensures FirstReadable(files, candidates) == k
  {
  }

  /**
   * What `appJs` holds after the candidate loop: the first truthy read, or else the last read
   * (a falsy one), or `null` when there are no candidates.
   */
  function Selected(files: map<string, string>, candidates: seq<string>): (r: Option<string>)
    ensures TruthyText(r) <==> exists m :: 0 <= m < |candidates| && TruthyText(ReadFile(files, candidates[m]))
  {
    var k := FirstReadable(files, candidates);
    if k < |candidates| then ReadFile(files, candidates[k])
    else if |candidates| == 0 then None
    else ReadFile(files, candidates[|candidates| - 1])
  }

  /** The candidate loop: read each path in turn and stop at the first truthy text. */
  method SelectAppJs(files: map<string, string>, candidates: seq<string>) returns (appJs: Option<string>)
    ensures appJs == Selected(files, candidates)
  {
    appJs := None;
    var i := 0;
    while i < |candidates|
      invariant 0 <= i <= |candidates|
      invariant forall m :: 0 <= m < i ==> !TruthyText(ReadFile(files, candidates[m]))
      invariant appJs == if i == 0 then None else ReadFile(files, candidates[i - 1])
    {
      appJs := ReadFile(files, candidates[i]);
      if TruthyText(appJs) {
        FirstReadableAt(files, candidates, i);
        break;
      }
      i := i + 1;
    }
  }

  /** `appJs.match(/PUNCHBUGGY_APP_VERSION\s*=\s*['"]([^'"]+)/)[1]`, or `null`. */
  function AppVersionOf(appJs: Option<string>): (r: Json)
    ensures r == JNull || (r.JStr? && r.s != "")
  {
    if !TruthyText(appJs) then JNull
    else match CapturedText(APP_VERSION, appJs.value)
    case None => JNull
    case Some(v) => JStr(v)
  }

  /** `JSON.parse(text).version || null`, with a parse failure read as `null`. */
  function ManifestVersionOf(text: Option<string>, parse: string -> Text): (r: Json)
    ensures r == JNull || Truthy(r)
  {
    if !TruthyText(text) then JNull
    else match parse(text.value)
    case OtherText(_) => JNull
    case JsonText(j) => if TruthyOpt(Get(j, "version")) then Get(j, "version").value else JNull
  }

  /** The characters that end a line for a multiline `^`. */
  predicate LineTerminator(c: char) {
    c == '\n' || c == '\r' || c as int == 0x2028 || c as int == 0x2029
  }

  /** Where a multiline `^` can match. */
  predicate LineStart(s: string, j: nat)
    requires j <= |s|
  {
    j == 0 || LineTerminator(s[j - 1])
  }

  /** `## \[([^\]]+)\]` at the start of `t`: where the bracketed text ends. */
  function HeadingLength(t: string): (r: Option<nat>)
    ensures r.Some? ==> 4 < r.value < |t| && StartsWith(t, "## [") && t[r.value] == ']'
    ensures r.Some? ==> forall m :: 4 <= m < r.value ==> t[m] != ']'
  {
    if !StartsWith(t, "## [") then None
    else
      var e := RunUntil(t, 4, {']'});
      if 4 < e < |t| then Some(e) else None
  }

  /** `^## \[([^\]]+)\]` with the `m` flag, at `j`. */
  function HeadingAt(s: string, j: nat): Option<nat>
    requires j <= |s|
  {
    if LineStart(s, j) then HeadingLength(s[j..]) else None
  }

  /** The leftmost position at or after `j` where the heading pattern matches. */
  function FirstHeading(s: string, j: nat): (r: Option<nat>)
    requires j <= |s|
    ensures r.Some? ==> j <= r.value <= |s| && HeadingAt(s, r.value).Some?
    ensures r.Some? ==> forall m :: j <= m < r.value ==> HeadingAt(s, m).None?
    ensures r.None? ==> forall m :: j <= m <= |s| ==> HeadingAt(s, m).None?
    decreases |s| - j
  {
    if HeadingAt(s, j).Some? then Some(j)
    else if j == |s| then None
    else FirstHeading(s, j + 1)
  }

  lemma FirstHeadingIs(s: string, j: nat)
    requires j <= |s| && HeadingAt(s, j).Some?
    requires forall m :: 0 <= m < j ==> HeadingAt(s, m).None?
    ensures FirstHeading(s, 0) == Some(j)
  {
  }

  /** `changelog.match(/^## \[([^\]]+)\]/m)[1]`, or `null`. */
  function ChangelogLatest(text: Option<string>): (r: Json)
    ensures r == JNull || (r.JStr? && r.s != "" && ']' !in r.s)
  {
    if !TruthyText(text) then JNull
    else match FirstHeading(text.value, 0)
    case None => JNull
    case Some(j) =>
      var t := text.value[j..];
      var e := HeadingLength(t).value;
      assert forall m :: 0 <= m < e - 4 ==> t[4..e][m] == t[m + 4];
      JStr(t[4..e])
  }

  /** The `output` object the script fills in. */
  datatype Output = Output(appVersion: Json, manifestVersion: Json, changelogLatest: Json)

  /** The audit's findings over the repository's files, with `JSON.parse` as a parameter. */
  function Audit(files: map<string, string>, parse: string -> Text): Output {
    Output(
      AppVersionOf(Selected(files, APP_CANDIDATES)),
      ManifestVersionOf(ReadFile(files, MANIFEST_FILE), parse),
      ChangelogLatest(ReadFile(files, CHANGELOG_FILE)))
  }

  /** `filter(Boolean)`. */
  function Present(vs: seq<Json>): (r: seq<Json>)
    ensures forall x :: x in r <==> x in vs && Truthy(x)
  {
    if |vs| == 0 then []
    else if Truthy(vs[0]) then [vs[0]] + Present(vs[1..])
    else Present(vs[1..])
  }

  /** `Array.from(new Set(vs))`: each value once, at its first occurrence. */
  function Distinct(vs: seq<Json>): (r: seq<Json>)
    ensures forall x :: x in r <==> x in vs
    ensures forall i, j :: 0 <= i < j < |r| ==> r[i] != r[j]
  {
    if |vs| == 0 then []
    else
      var d := Distinct(vs[..|vs| - 1]);
      assert vs == vs[..|vs| - 1] + [vs[|vs| - 1]];
      if vs[|vs| - 1] in d then d else d + [vs[|vs| - 1]]
  }

  function Versions(out: Output): seq<Json> {
    Present([out.appVersion, out.manifestVersion, out.changelogLatest])
  }

  /** The exit status: 0 when the versions agree, 2 on a mismatch. */
  function ExitCode(out: Output): (code: nat)
    ensures code == 0 || code == 2
  {
    if |Distinct(Versions(out))| <= 1 then 0 else 2
  }

  /** The script: the candidate loop, then the three readings, then the verdict. */
  method CheckVersions(files: map<string, string>, parse: string -> Text) returns (out: Output, code: nat)
    ensures out == Audit(files, parse) && code == ExitCode(out)
  {
    var appJs := SelectAppJs(files, APP_CANDIDATES);
    var appVersion := AppVersionOf(appJs);
    var manifestVersion := ManifestVersionOf(ReadFile(files, MANIFEST_FILE), parse);
    var changelogLatest := ChangelogLatest(ReadFile(files, CHANGELOG_FILE));
    out := Output(appVersion, manifestVersion, changelogLatest);
    code := ExitCode(out);
  }

  /**
   * The verdict is OK exactly when all versions found agree; missing ones are not compared, so
   * three missing versions are consistent too.
   */
  lemma ConsistentIff(out: Output)
    ensures ExitCode(out) == 0 <==>
      forall x, y :: x in Versions(out) && y in Versions(out) ==> x == y
  {
    var d := Distinct(Versions(out));
    if |d| >= 2 {
      assert d[0] != d[1] && d[0] in Versions(out) && d[1] in Versions(out);
    } else if |d| == 1 {
      forall x | x in Versions(out) ensures x == d[0] {
        assert x in d;
      }
    }
  }

  /** Two different versions that are both present make the audit fail. */
  lemma MismatchFails(out: Output)
    requires Truthy(out.appVersion) && Truthy(out.changelogLatest)
    requires out.appVersion != out.changelogLatest
    ensures ExitCode(out) == 2
  {
    ConsistentIff(out);
    assert out.appVersion in Versions(out) && out.changelogLatest in Versions(out);
  }

  /** The app version comes from the first candidate that reads as a non-empty text. */
  lemma AppVersionFromFirstReadable(files: map<string, string>, parse: string -> Text, k: nat)
    requires k < |APP_CANDIDATES| && TruthyText(ReadFile(files, APP_CANDIDATES[k]))
    requires forall m :: 0 <= m < k ==> !TruthyText(ReadFile(files, APP_CANDIDATES[m]))
    ensures Audit(files, parse).appVersion == AppVersionOf(Some(files[APP_CANDIDATES[k]]))
  {
    FirstReadableAt(files, APP_CANDIDATES, k);
  }

  /** A manifest that `JSON.parse` rejects yields no manifest version. */
  lemma UnparsableManifest(files: map<string, string>, parse: string -> Text)
    requires MANIFEST_FILE in files && parse(files[MANIFEST_FILE]).OtherText?
    ensures Audit(files, parse).manifestVersion == JNull
  {
  }

  // The changelog written by the bump script, read back by the audit.

  /** The text of lines each followed by a newline. */
  function Terminated(lines: seq<string>): string {
    if |lines| == 0 then "" else lines[0] + "\n" + Terminated(lines[1..])
  }

  lemma {:induction false} JoinTerminated(a: seq<string>, b: seq<string>)
    requires |b| >= 1
    ensures Join(a + b, '\n') == Terminated(a) + Join(b, '\n')
  {
    if |a| > 0 {
      JoinTerminated(a[1..], b);
      assert (a + b)[1..] == a[1..] + b;
      if |a[1..] + b| >= 1 {
        assert Join(a + b, '\n') == a[0] + ['\n'] + Join(a[1..] + b, '\n');
      }
    } else {
      assert a + b == b;
    }
  }

  /** A heading found in `b` is found at the same place after a prefix that ends a line. */
  lemma HeadingShift(a: string, b: string, j: nat)
    requires j <= |b| && (|a| == 0 || a[|a| - 1] == '\n')
    ensures HeadingAt(a + b, |a| + j) == HeadingAt(b, j)
  {
    assert (a + b)[|a| + j..] == b[j..];
    if j > 0 {
      assert (a + b)[|a| + j - 1] == b[j - 1];
    }
  }

  /** No heading starts inside lines none of which starts with `## [` or holds a line terminator. */
  lemma {:induction false} NoHeadingBefore(lines: seq<string>, rest: string)
    requires forall k :: 0 <= k < |lines| ==> !StartsWith(lines[k], "## [")
    requires forall k, m :: 0 <= k < |lines| && 0 <= m < |lines[k]| ==> !LineTerminator(lines[k][m])
    ensures forall j :: 0 <= j < |Terminated(lines)| ==> HeadingAt(Terminated(lines) + rest, j).None?
  {
    if |lines| > 0 {
      var l := lines[0];
      var a := l + "\n";
      var b := Terminated(lines[1..]) + rest;
      var s := Terminated(lines) + rest;
      assert s == a + b;
      NoHeadingBefore(lines[1..], rest);
      forall j | 0 <= j < |Terminated(lines)| ensures HeadingAt(s, j).None? {
        if j == 0 {
          if |l| >= 4 {
            assert s[..4] == l[..4];
          } else {
            assert s[|l|] == '\n';
          }
        } else if j <= |l| {
          assert s[j - 1] == l[j - 1];
        } else {
          HeadingShift(a, Terminated(lines[1..]) + rest, j - |a|);
        }
      }
    }
  }

  /** Every character of a piece of a split text occurs in the text. */
  lemma {:induction false} SplitPieceChars(s: string, sep: char, k: nat, c: char)
    requires k < |Split(s, sep)| && c in Split(s, sep)[k]
    ensures c in s
  {
    if |s| > 0 {
      var rest := Split(s[1..], sep);
      if s[0] == sep {
        if k > 0 {
          SplitPieceChars(s[1..], sep, k - 1, c);
        }
      } else if k == 0 {
        if c != s[0] {
          assert c in rest[0];
          SplitPieceChars(s[1..], sep, 0, c);
        }
      } else {
        SplitPieceChars(s[1..], sep, k, c);
      }
    }
  }

  /** A line that starts with a version's heading is matched where it starts. */
  lemma EntryHeadingAt(pre: string, version: string, t: string)
    requires |pre| == 0 || pre[|pre| - 1] == '\n'
    requires |version| > 0 && ']' !in version
    requires StartsWith(t, BumpVersion.Heading(version))
    ensures HeadingAt(pre + t, |pre|) == Some(4 + |version|)
    ensures (pre + t)[|pre|..][4..4 + |version|] == version
  {
    var h := BumpVersion.Heading(version);
    assert t[..|h|] == h;
    assert (pre + t)[|pre|..] == t;
    assert t[..4] == h[..4] == "## [";
    assert t[4 + |version|] == h[4 + |version|] == ']';
    assert t[4..4 + |version|] == h[4..4 + |version|] == version;
    RunUntilAt(t, 4, 4 + |version|, {']'});
    HeadingShift(pre, t, 0);
  }

  lemma VersionHasNoBracket(version: string)
    requires BumpVersion.ValidVersion(version)
    ensures |version| > 0 && ']' !in version
  {
    BumpVersion.VersionCharacters(version);
    forall m | 0 <= m < |version| ensures version[m] != ']' {
      assert IsDigit(version[m]) || version[m] == '.';
    }
  }

  /** What follows the new version's bracketed heading in an inserted changelog. */
  function AfterHeading(contents: string, version: string, date: string, notes: string): string {
    var lines := Split(contents, '\n');
    var k := BumpVersion.HeaderIndex(lines);
    var tail := BumpVersion.Entry(version, date, notes) + lines[k..];
    " - " + date + "\n" + Join(tail[1..], '\n')
  }

  /** How an inserted changelog is laid out: the older lines before the first heading, then the new heading line. */
  lemma InsertedLayout(contents: string, version: string, date: string, notes: string)
    requires !Contains(contents, BumpVersion.Heading(version))
    ensures var lines := Split(contents, '\n');
      var k := BumpVersion.HeaderIndex(lines);
      BumpVersion.UpdateChangelog(contents, version, date, notes) ==
        Terminated(lines[..k]) + (BumpVersion.Heading(version) + AfterHeading(contents, version, date, notes))
  {
    var lines := Split(contents, '\n');
    var k := BumpVersion.HeaderIndex(lines);
    var entry := BumpVersion.Entry(version, date, notes);
    var tail := entry + lines[k..];
    assert lines[..k] + entry + lines[k..] == lines[..k] + tail;
    JoinTerminated(lines[..k], tail);
    assert Join(tail, '\n') == entry[0] + "\n" + Join(tail[1..], '\n');
  }

  /** The older lines before the first heading hold no line terminator when the text holds only newlines. */
  lemma LinesBeforeClean(contents: string, k: nat)
    requires k <= |Split(contents, '\n')|
    requires forall m :: 0 <= m < |contents| ==> contents[m] == '\n' || !LineTerminator(contents[m])
    ensures var ls := Split(contents, '\n')[..k];
      forall i, m :: 0 <= i < |ls| && 0 <= m < |ls[i]| ==> !LineTerminator(ls[i][m])
  {
    var lines := Split(contents, '\n');
    forall i, m | 0 <= i < k && 0 <= m < |lines[i]| ensures !LineTerminator(lines[i][m]) {
      SplitPieceChars(contents, '\n', i, lines[i][m]);
    }
  }

  /**
   * After an insertion by the bump script, the audit reads the new version as the changelog's
   * latest, provided the older text has no carriage returns or Unicode line separators (which a
   * multiline `^` treats as line ends but `split('\n')` does not).
   */
  lemma ChangelogReadBack(contents: string, version: string, date: string, notes: string)
    requires BumpVersion.ValidVersion(version)
    requires !Contains(contents, BumpVersion.Heading(version))
    requires forall m :: 0 <= m < |contents| ==> contents[m] == '\n' || !LineTerminator(contents[m])
    ensures ChangelogLatest(Some(BumpVersion.UpdateChangelog(contents, version, date, notes))) == JStr(version)
  {
    var lines := Split(contents, '\n');
    var k := BumpVersion.HeaderIndex(lines);
    var t := BumpVersion.Heading(version) + AfterHeading(contents, version, date, notes);
    InsertedLayout(contents, version, date, notes);
    LinesBeforeClean(contents, k);
    StartsWithAppend(BumpVersion.Heading(version), AfterHeading(contents, version, date, notes));
    HeadingReadBack(lines[..k], version, t);
  }

  lemma StartsWithAppend(h: string, x: string)
    ensures StartsWith(h + x, h)
  {
    assert (h + x)[..|h|] == h;
  }

  /** Lines free of headings and line terminators, then a new heading line: its version is the latest. */
  lemma HeadingReadBack(ls: seq<string>, version: string, t: string)
    requires BumpVersion.ValidVersion(version)
    requires forall k :: 0 <= k < |ls| ==> !StartsWith(ls[k], "## [")
    requires forall k, m :: 0 <= k < |ls| && 0 <= m < |ls[k]| ==> !LineTerminator(ls[k][m])
    requires StartsWith(t, BumpVersion.Heading(version))
    ensures ChangelogLatest(Some(Terminated(ls) + t)) == JStr(version)
  {
    var pre := Terminated(ls);
    VersionHasNoBracket(version);
    TerminatedEnds(ls);
    EntryHeadingAt(pre, version, t);
    NoHeadingBefore(ls, t);
    LatestIs(pre + t, |pre|, version);
  }

  lemma LatestIs(s: string, j: nat, version: string)
    requires j <= |s| && HeadingAt(s, j) == Some(4 + |version|) && s[j..][4..4 + |version|] == version
    requires forall m :: 0 <= m < j ==> HeadingAt(s, m).None?
    ensures ChangelogLatest(Some(s)) == JStr(version)
  {
    FirstHeadingIs(s, j);
  }

  lemma {:induction false} TerminatedEnds(lines: seq<string>)
    ensures |Terminated(lines)| == 0 || Terminated(lines)[|Terminated(lines)| - 1] == '\n'
  {
    if |lines| > 0 {
      TerminatedEnds(lines[1..]);
    }
  }

  /** The bump script leaves the public manifest alone. */
  lemma BumpKeepsPublicManifest(files: map<string, string>, args: seq<string>, date: string)
    requires BumpVersion.Bump(files, args, date).exitCode == 0
    ensures ReadFile(BumpVersion.Bump(files, args, date).files, MANIFEST_FILE) == ReadFile(files, MANIFEST_FILE)
  {
    assert |MANIFEST_FILE| != |BumpVersion.APP_PATH|;
    assert |MANIFEST_FILE| != |BumpVersion.MANIFEST_PATH|;
    assert |MANIFEST_FILE| != |BumpVersion.CHANGELOG_PATH|;
    if MANIFEST_FILE in files {
      BumpVersion.BumpOtherFiles(files, args, date, MANIFEST_FILE);
    }
  }

  lemma BumpedAppVersion(files: map<string, string>, args: seq<string>, date: string, parse: string -> Text)
    requires BumpVersion.Bump(files, args, date).exitCode == 0
    ensures Audit(BumpVersion.Bump(files, args, date).files, parse).appVersion == JStr(args[0])
  {
    var r := BumpVersion.Bump(files, args, date).files;
    BumpVersion.BumpWritesVersion(files, args, date);
    assert r[APP_CANDIDATES[0]] != "" by {
      assert CapturedText(APP_VERSION, r[BumpVersion.APP_PATH]).Some?;
    }
    AppVersionFromFirstReadable(r, parse, 0);
  }

  lemma BumpedChangelog(files: map<string, string>, args: seq<string>, date: string, parse: string -> Text)
    requires BumpVersion.Bump(files, args, date).exitCode == 0
    requires !Contains(files[BumpVersion.CHANGELOG_PATH], BumpVersion.Heading(args[0]))
    requires var c := files[BumpVersion.CHANGELOG_PATH];
      forall m :: 0 <= m < |c| ==> c[m] == '\n' || !LineTerminator(c[m])
    ensures Audit(BumpVersion.Bump(files, args, date).files, parse).changelogLatest == JStr(args[0])
  {
    BumpVersion.BumpFiles(files, args, date);
    ChangelogReadBack(files[BumpVersion.CHANGELOG_PATH], args[0], date, BumpVersion.Notes(args[1..]));
  }

  /** With the app version and the changelog agreeing on `v`, the verdict hangs on the manifest. */
  lemma VerdictHangsOnManifest(out: Output, v: string)
    requires out.appVersion == JStr(v) && out.changelogLatest == JStr(v) && v != ""
    requires out.manifestVersion == JNull || Truthy(out.manifestVersion)
    ensures ExitCode(out) == 0 <==> out.manifestVersion == JNull || out.manifestVersion == JStr(v)
  {
    ConsistentIff(out);
    assert out.appVersion in Versions(out);
    if Truthy(out.manifestVersion) {
      assert out.manifestVersion in Versions(out);
    }
  }

  /**
   * A successful bump followed by the audit: the app script and the changelog read back the new
   * version, but the bump script rewrites `manifest.webmanifest` while the audit reads
   * `public/manifest.webmanifest`, which keeps whatever it held. The audit therefore passes
   * exactly when that manifest has no version or already has the new one.
   */
  lemma BumpThenAudit(files: map<string, string>, args: seq<string>, date: string, parse: string -> Text)
    requires BumpVersion.Bump(files, args, date).exitCode == 0
    requires !Contains(files[BumpVersion.CHANGELOG_PATH], BumpVersion.Heading(args[0]))
    requires var c := files[BumpVersion.CHANGELOG_PATH];
      forall m :: 0 <= m < |c| ==> c[m] == '\n' || !LineTerminator(c[m])
    ensures var out := Audit(BumpVersion.Bump(files, args, date).files, parse);
      && out.appVersion == JStr(args[0])
      && out.changelogLatest == JStr(args[0])
      && out.manifestVersion == Audit(files, parse).manifestVersion
      && (ExitCode(out) == 0 <==> out.manifestVersion == JNull || out.manifestVersion == JStr(args[0]))
  {
    BumpKeepsPublicManifest(files, args, date);
    BumpedAppVersion(files, args, date, parse);
    BumpedChangelog(files, args, date, parse);
    VerdictHangsOnManifest(Audit(BumpVersion.Bump(files, args, date).files, parse), args[0]);
  }
}
