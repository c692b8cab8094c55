/**
 * The release helper that stamps a new version into the app-version script, the web manifest
 * and the changelog. The three text transformations are pure; the script around them reads,
 * transforms and writes one file after another, stopping at the first failure, so a failure in
 * a later step leaves the earlier files already rewritten.
 */
module BumpVersion {
  import opened Wrappers
  import opened Strings
  import opened Patterns

  const USAGE := "Usage: node scripts/bump-version.js <x.y.z> [notes]"
  const APP_MISSING := "Could not find PUNCHBUGGY_APP_VERSION assignment."
  const MANIFEST_MISSING := "Could not find manifest version."

  const APP_PATH := "public/app-version.js"
  const MANIFEST_PATH := "manifest.webmanifest"
  const CHANGELOG_PATH := "CHANGELOG.md"

  /** `\d*` from `i`: the first position at or after `i` that is not an ASCII digit. */
  function DigitRun(s: string, i: nat): (k: nat)
    requires i <= |s|
    ensures i <= k <= |s|
    ensures forall m :: i <= m < k ==> IsDigit(s[m])
    ensures k < |s| ==> !IsDigit(s[k])
    decreases |s| - i
  {
    if i == |s| || !IsDigit(s[i]) then i else DigitRun(s, i + 1)
  }

  /** `/^\d+\.\d+\.\d+$/.test(s)`: each greedy `\d+` must stop at the dot or the end. */
  predicate ValidVersion(s: string) {
    var a := DigitRun(s, 0);
    a > 0 && a < |s| && s[a] == '.' &&
    var b := DigitRun(s, a + 1);
    b > a + 1 && b < |s| && s[b] == '.' &&
    var c := DigitRun(s, b + 1);
    c > b + 1 && c == |s|
  }

  predicate Numeral(s: string) {
    |s| > 0 && forall k :: 0 <= k < |s| ==> IsDigit(s[k])
  }

  lemma DigitRunAt(s: string, i: nat, k: nat)
    requires i <= k <= |s|
    requires forall m :: i <= m < k ==> IsDigit(s[m])
    requires k < |s| ==> !IsDigit(s[k])
    ensures DigitRun(s, i) == k
  {
  }

  lemma NumeralsNoDot(s: string)
    requires Numeral(s)
    ensures '.' !in s
  {
    forall k | 0 <= k < |s| ensures s[k] != '.' {
      assert IsDigit(s[k]);
    }
  }

  /** A valid version is three numerals joined by dots. */
  lemma VersionShape(s: string)
    requires ValidVersion(s)
    ensures var a := DigitRun(s, 0);
      var b := DigitRun(s, a + 1);
      && Numeral(s[..a]) && Numeral(s[a + 1..b]) && Numeral(s[b + 1..])
      && s == s[..a] + "." + s[a + 1..b] + "." + s[b + 1..]
  {
    var a := DigitRun(s, 0);
    var b := DigitRun(s, a + 1);
    assert s == s[..a] + [s[a]] + s[a + 1..b] + [s[b]] + s[b + 1..];
  }

  /** Three numerals joined by dots form a valid version. */
  lemma NumeralsMakeVersion(x: string, y: string, z: string)
    requires Numeral(x) && Numeral(y) && Numeral(z)
    ensures ValidVersion(x + "." + y + "." + z)
  {
    var s := x + "." + y + "." + z;
    var a := |x|;
    var b := a + 1 + |y|;
    assert s[a] == '.' && s[b] == '.';
    forall m | 0 <= m < a ensures IsDigit(s[m]) {
      assert s[m] == x[m];
    }
    DigitRunAt(s, 0, a);
    forall m | a + 1 <= m < b ensures IsDigit(s[m]) {
      assert s[m] == y[m - a - 1];
    }
    DigitRunAt(s, a + 1, b);
    forall m | b + 1 <= m < |s| ensures IsDigit(s[m]) {
      assert s[m] == z[m - b - 1];
    }
    DigitRunAt(s, b + 1, |s|);
  }

  lemma SplitThree(x: string, y: string, z: string)
    requires '.' !in x && '.' !in y && '.' !in z
    ensures Split(x + "." + y + "." + z, '.') == [x, y, z]
  {
    SplitNoSep(z, '.');
    SplitAtFirst(y, z, '.');
    SplitAtFirst(x, y + "." + z, '.');
    assert x + "." + y + "." + z == x + ['.'] + (y + ['.'] + z);
  }

  lemma VersionSplits(s: string)
    requires ValidVersion(s)
    ensures var parts := Split(s, '.');
      |parts| == 3 && Numeral(parts[0]) && Numeral(parts[1]) && Numeral(parts[2])
  {
    var a := DigitRun(s, 0);
    var b := DigitRun(s, a + 1);
    var x, y, z := s[..a], s[a + 1..b], s[b + 1..];
    VersionShape(s);
    NumeralsNoDot(x);
    NumeralsNoDot(y);
    NumeralsNoDot(z);
    SplitThree(x, y, z);
  }

  lemma PartsMakeVersion(s: string)
    requires var parts := Split(s, '.');
      |parts| == 3 && Numeral(parts[0]) && Numeral(parts[1]) && Numeral(parts[2])
    ensures ValidVersion(s)
  {
    var parts := Split(s, '.');
    JoinSplit(s, '.');
    assert parts[1..][1..] == [parts[2]];
    assert Join(parts[1..], '.') == parts[1] + "." + parts[2];
    assert Join(parts, '.') == parts[0] + "." + (parts[1] + "." + parts[2]);
    assert s == parts[0] + "." + parts[1] + "." + parts[2];
    NumeralsMakeVersion(parts[0], parts[1], parts[2]);
  }

  /**
   * The format check reads the version as `major.minor.patch`: it accepts a text exactly when
   * splitting it at the dots gives three non-empty runs of digits.
   */
  lemma ValidVersionParts(s: string)
    ensures ValidVersion(s) <==>
      var parts := Split(s, '.');
      |parts| == 3 && Numeral(parts[0]) && Numeral(parts[1]) && Numeral(parts[2])
  {
    if ValidVersion(s) {
      VersionSplits(s);
    }
    var parts := Split(s, '.');
    if |parts| == 3 && Numeral(parts[0]) && Numeral(parts[1]) && Numeral(parts[2]) {
      PartsMakeVersion(s);
    }
  }

  /** What the later steps rely on: a valid version is a non-empty run of digits and dots. */
  lemma VersionCharacters(s: string)
    requires ValidVersion(s)
    ensures |s| > 0
    ensures forall k :: 0 <= k < |s| ==> IsDigit(s[k]) || s[k] == '.'
  {
    var a := DigitRun(s, 0);
    var b := DigitRun(s, a + 1);
    forall k | 0 <= k < |s| ensures IsDigit(s[k]) || s[k] == '.' {
      if k != a && k != b {
        assert k < a || a < k < b || b < k;
      }
    }
  }

  /** The replacement `PUNCHBUGGY_APP_VERSION = '<version>'`. */
  function AppAssignment(version: string): string {
    Assignment(APP_VERSION, " ", " ", '\'', version)
  }

  /** The replacement `"version": "<version>"`. */
  function ManifestAssignment(version: string): string {
    Assignment(MANIFEST_VERSION, "", " ", '"', version)
  }

  /** `updateAppVersion`: rewrite the first assignment, or fail when there is none. */
  function UpdateAppVersion(contents: string, version: string): (r: Result<string, string>)
    ensures r.Err? <==> forall m :: 0 <= m <= |contents| ==> MatchEnd(APP_VERSION, contents, m).None?
    ensures r.Err? ==> r.error == APP_MISSING
  {
    match ReplaceFirst(APP_VERSION, contents, AppAssignment(version))
    case None => Err(APP_MISSING)
    case Some(t) => Ok(t)
  }

  /** `updateManifest`: rewrite the first `"version"` member, or fail when there is none. */
  function UpdateManifest(contents: string, version: string): (r: Result<string, string>)
    ensures r.Err? <==> forall m :: 0 <= m <= |contents| ==> MatchEnd(MANIFEST_VERSION, contents, m).None?
    ensures r.Err? ==> r.error == MANIFEST_MISSING
  {
    match ReplaceFirst(MANIFEST_VERSION, contents, ManifestAssignment(version))
    case None => Err(MANIFEST_MISSING)
    case Some(t) => Ok(t)
  }

  lemma VersionIsQuoteFree(version: string, quotes: set<char>)
    requires ValidVersion(version)
    requires forall q :: q in quotes ==> !IsDigit(q) && q != '.'
    ensures |version| > 0 && forall k :: 0 <= k < |version| ==> version[k] !in quotes
  {
    VersionCharacters(version);
  }

  lemma AppRematches(version: string)
    requires ValidVersion(version)
    ensures Rematches(APP_VERSION, " ", " ", '\'', version)
  {
    AppVersionWellFormed();
    VersionIsQuoteFree(version, APP_VERSION.quotes);
    assert IsJsSpace(' ');
  }

  lemma ManifestRematches(version: string)
    requires ValidVersion(version)
    ensures Rematches(MANIFEST_VERSION, "", " ", '"', version)
  {
    ManifestVersionWellFormed();
    VersionIsQuoteFree(version, MANIFEST_VERSION.quotes);
    assert IsJsSpace(' ');
  }

  /** The rewritten app script yields the new version to `match`, as the version check reads it. */
  lemma AppVersionReadBack(contents: string, version: string)
    requires ValidVersion(version) && UpdateAppVersion(contents, version).Ok?
    ensures CapturedText(APP_VERSION, UpdateAppVersion(contents, version).value) == Some(version)
  {
    AppRematches(version);
    ReplacedValue(APP_VERSION, contents, " ", " ", '\'', version);
  }

  lemma UpdateAppVersionIdempotent(contents: string, version: string)
    requires ValidVersion(version)
    ensures var r := UpdateAppVersion(contents, version);
      r.Ok? ==> UpdateAppVersion(r.value, version) == r
  {
    AppRematches(version);
    ReplaceFirstIdempotent(APP_VERSION, contents, " ", " ", '\'', version);
  }

  /** The rewritten manifest yields the new version to the same pattern. */
  lemma ManifestVersionReadBack(contents: string, version: string)
    requires ValidVersion(version) && UpdateManifest(contents, version).Ok?
    ensures CapturedText(MANIFEST_VERSION, UpdateManifest(contents, version).value) == Some(version)
  {
    ManifestRematches(version);
    ReplacedValue(MANIFEST_VERSION, contents, "", " ", '"', version);
  }

  lemma UpdateManifestIdempotent(contents: string, version: string)
    requires ValidVersion(version)
    ensures var r := UpdateManifest(contents, version);
      r.Ok? ==> UpdateManifest(r.value, version) == r
  {
    ManifestRematches(version);
    ReplaceFirstIdempotent(MANIFEST_VERSION, contents, "", " ", '"', version);
  }

  /** `args.slice(1).join(' ').trim()`. */
  function Notes(rest: seq<string>): string {
    Trim(Join(rest, ' '))
  }

  function Heading(version: string): string {
    "## [" + version + "]"
  }

  /** The three lines an entry adds: its heading, its note (`TBD` when there is none) and a blank. */
  function Entry(version: string, date: string, notes: string): (r: seq<string>)
    ensures |r| == 3 && StartsWith(r[0], Heading(version)) && r[2] == ""
  {
    [Heading(version) + " - " + date, "- " + (if notes == "" then "TBD" else notes), ""]
  }

  /** `lines.findIndex(line => line.startsWith('## ['))`, with `-1` read as the end of the list. */
  function HeaderIndex(lines: seq<string>): (k: nat)
    ensures k <= |lines|
    ensures forall m :: 0 <= m < k ==> !StartsWith(lines[m], "## [")
    ensures k < |lines| ==> StartsWith(lines[k], "## [")
  {
    if |lines| == 0 then 0
    else if StartsWith(lines[0], "## [") then 0
    else 1 + HeaderIndex(lines[1..])
  }

  lemma HeaderIndexAt(lines: seq<string>, k: nat)
    requires k < |lines| && StartsWith(lines[k], "## [")
    requires forall m :: 0 <= m < k ==> !StartsWith(lines[m], "## [")
    ensures HeaderIndex(lines) == k
  {
  }

  /** The lines the changelog holds once the entry is spliced in before the first heading. */
  function Spliced(contents: string, version: string, date: string, notes: string): seq<string> {
    var lines := Split(contents, '\n');
    var k := HeaderIndex(lines);
    lines[..k] + Entry(version, date, notes) + lines[k..]
  }

  /** `updateChangelog`. */
  function UpdateChangelog(contents: string, version: string, date: string, notes: string): (r: string)
    ensures Contains(r, Heading(version))
  {
    if Contains(contents, Heading(version)) then contents
    else
      var lines := Split(contents, '\n');
      var k := HeaderIndex(lines);
      var entry := Entry(version, date, notes);
      var all := lines[..k] + entry + lines[k..];
      assert all[k] == entry[0];
      JoinContainsElement(all, k, '\n');
      assert entry[0] == Heading(version) + (" - " + date);
      ContainsPrefixOf(Join(all, '\n'), Heading(version), " - " + date);
      Join(all, '\n')
  }

  /** A second run with the same version leaves the changelog as the first run left it. */
  lemma UpdateChangelogIdempotent(contents: string, version: string, date: string, date2: string, notes: string, notes2: string)
    ensures var once := UpdateChangelog(contents, version, date, notes);
      UpdateChangelog(once, version, date2, notes2) == once
  {
  }

  lemma EntryHasNoNewline(version: string, date: string, notes: string)
    requires '\n' !in version && '\n' !in date && '\n' !in notes
    ensures forall m :: 0 <= m < 3 ==> '\n' !in Entry(version, date, notes)[m]
  {
    var e := Entry(version, date, notes);
    assert e[0] == "## [" + version + "] - " + date;
    assert '\n' !in "## [" && '\n' !in "] - " && '\n' !in "- " && '\n' !in "TBD";
  }

  /**
   * An insertion adds exactly the three entry lines, just before the first `## [` line (or at
   * the end), and keeps every other line in its order.
   */
  lemma ChangelogLines(contents: string, version: string, date: string, notes: string)
    requires !Contains(contents, Heading(version))
    requires '\n' !in version && '\n' !in date && '\n' !in notes
    ensures var lines := Split(contents, '\n');
      var k := HeaderIndex(lines);
      Split(UpdateChangelog(contents, version, date, notes), '\n') ==
        lines[..k] + Entry(version, date, notes) + lines[k..]
  {
    var lines := Split(contents, '\n');
    var k := HeaderIndex(lines);
    var all := lines[..k] + Entry(version, date, notes) + lines[k..];
    EntryHasNoNewline(version, date, notes);
    SpliceKeepsSeparatorOut(lines, k, Entry(version, date, notes), '\n');
    SplitJoin(all, '\n');
  }

  /** Lines without the separator, with lines without it spliced in, still have none. */
  lemma SpliceKeepsSeparatorOut(lines: seq<string>, k: nat, entry: seq<string>, sep: char)
    requires k <= |lines|
    requires forall m :: 0 <= m < |lines| ==> sep !in lines[m]
    requires forall m :: 0 <= m < |entry| ==> sep !in entry[m]
    ensures var all := lines[..k] + entry + lines[k..];
      forall m :: 0 <= m < |all| ==> sep !in all[m]
  {
    var all := lines[..k] + entry + lines[k..];
    forall m | 0 <= m < |all| ensures sep !in all[m] {
      if m < k {
        assert all[m] == lines[m];
      } else if m < k + |entry| {
        assert all[m] == entry[m - k];
      } else {
        assert all[m] == lines[m - |entry|];
      }
    }
  }

  /** After an insertion, the first heading of the changelog is the new version's. */
  lemma ChangelogFirstHeading(contents: string, version: string, date: string, notes: string)
    requires !Contains(contents, Heading(version))
    requires '\n' !in version && '\n' !in date && '\n' !in notes
    ensures var lines := Split(UpdateChangelog(contents, version, date, notes), '\n');
      var k := HeaderIndex(Split(contents, '\n'));
      && HeaderIndex(lines) == k && k < |lines|
      && lines[k] == Heading(version) + " - " + date
  {
    var before := Split(contents, '\n');
    var k := HeaderIndex(before);
    var lines := before[..k] + Entry(version, date, notes) + before[k..];
    ChangelogLines(contents, version, date, notes);
    assert lines[k] == Entry(version, date, notes)[0];
    assert StartsWith("## [", "## [");
    forall m | 0 <= m < k ensures !StartsWith(lines[m], "## [") {
      assert lines[m] == before[m];
    }
    HeaderIndexAt(lines, k);
  }

  /** What the script ends with: the files as it leaves them, its exit status and its message. */
  datatype Outcome = Outcome(files: map<string, string>, exitCode: nat, message: string)

  function CannotRead(path: string): string {
    "Cannot read " + path
  }

  /** The last step: read the changelog, insert the entry, write it back. */
  function WriteChangelog(files: map<string, string>, version: string, date: string, notes: string): (r: Outcome)
    ensures r.files.Keys == files.Keys
    ensures r.exitCode == 0 <==> CHANGELOG_PATH in files
    ensures r.exitCode == 0 ==> r.files[CHANGELOG_PATH] == UpdateChangelog(files[CHANGELOG_PATH], version, date, notes)
    ensures r.exitCode == 0 ==> forall f :: f in files && f != CHANGELOG_PATH ==> r.files[f] == files[f]
    ensures r.exitCode != 0 ==> r.files == files && r.exitCode == 1
  {
    if CHANGELOG_PATH !in files then Outcome(files, 1, CannotRead(CHANGELOG_PATH))
    else
      var log := UpdateChangelog(files[CHANGELOG_PATH], version, date, notes);
      Outcome(files[CHANGELOG_PATH := log], 0, "Version bumped to " + version)
  }

  /** The manifest step, then the changelog step. */
  function WriteManifest(files: map<string, string>, version: string, date: string, notes: string): (r: Outcome)
    ensures r.files.Keys == files.Keys
    ensures r.exitCode == 0 || r.exitCode == 1
  {
    if MANIFEST_PATH !in files then Outcome(files, 1, CannotRead(MANIFEST_PATH))
    else match UpdateManifest(files[MANIFEST_PATH], version)
    case Err(m) => Outcome(files, 1, m)
    case Ok(manifest) => WriteChangelog(files[MANIFEST_PATH := manifest], version, date, notes)
  }

  /** The app-version step, then the rest. */
  function WriteApp(files: map<string, string>, version: string, date: string, notes: string): (r: Outcome)
    ensures r.files.Keys == files.Keys
    ensures r.exitCode == 0 || r.exitCode == 1
  {
    if APP_PATH !in files then Outcome(files, 1, "Missing app version file: " + APP_PATH)
    else match UpdateAppVersion(files[APP_PATH], version)
    case Err(m) => Outcome(files, 1, m)
    case Ok(app) => WriteManifest(files[APP_PATH := app], version, date, notes)
  }

  /**
   * The script as a whole, over the repository's files (a missing key is a file that does not
   * exist), the command-line arguments after the script name and today's date.
   */
  function Bump(files: map<string, string>, args: seq<string>, date: string): (r: Outcome)
    ensures r.files.Keys == files.Keys
    ensures r.exitCode == 0 || r.exitCode == 1
  {
    if |args| == 0 || !ValidVersion(args[0]) then Outcome(files, 1, USAGE)
    else WriteApp(files, args[0], date, Notes(args[1..]))
  }

  lemma WriteManifestSucceeds(files: map<string, string>, version: string, date: string, notes: string)
    ensures WriteManifest(files, version, date, notes).exitCode == 0 <==>
      && MANIFEST_PATH in files && UpdateManifest(files[MANIFEST_PATH], version).Ok?
      && CHANGELOG_PATH in files
  {
  }

  lemma WriteAppSucceeds(files: map<string, string>, version: string, date: string, notes: string)
    ensures WriteApp(files, version, date, notes).exitCode == 0 <==>
      && APP_PATH in files && UpdateAppVersion(files[APP_PATH], version).Ok?
      && MANIFEST_PATH in files && UpdateManifest(files[MANIFEST_PATH], version).Ok?
      && CHANGELOG_PATH in files
  {
    if APP_PATH in files && UpdateAppVersion(files[APP_PATH], version).Ok? {
      var files1 := files[APP_PATH := UpdateAppVersion(files[APP_PATH], version).value];
      assert APP_PATH[0] != MANIFEST_PATH[0];
      assert MANIFEST_PATH in files1 <==> MANIFEST_PATH in files;
      assert MANIFEST_PATH in files ==> files1[MANIFEST_PATH] == files[MANIFEST_PATH];
      assert CHANGELOG_PATH in files1 <==> CHANGELOG_PATH in files;
      WriteManifestSucceeds(files1, version, date, notes);
    }
  }

  /** The script succeeds exactly when the version is valid, the three files exist and both patterns match. */
  lemma BumpSucceeds(files: map<string, string>, args: seq<string>, date: string)
    ensures Bump(files, args, date).exitCode == 0 <==>
      && |args| > 0 && ValidVersion(args[0])
      && APP_PATH in files && UpdateAppVersion(files[APP_PATH], args[0]).Ok?
      && MANIFEST_PATH in files && UpdateManifest(files[MANIFEST_PATH], args[0]).Ok?
      && CHANGELOG_PATH in files
  {
    if |args| > 0 && ValidVersion(args[0]) {
      WriteAppSucceeds(files, args[0], date, Notes(args[1..]));
    }
  }

  /** A rejected version changes no file. */
  lemma BadVersionWritesNothing(files: map<string, string>, args: seq<string>, date: string)
    requires |args| == 0 || !ValidVersion(args[0])
    ensures Bump(files, args, date) == Outcome(files, 1, USAGE)
  {
  }

  /**
   * The steps are not atomic: when the manifest has no version member, the script fails with
   * the app script already rewritten.
   */
  lemma ManifestFailureKeepsAppWrite(files: map<string, string>, args: seq<string>, date: string)
    requires |args| > 0 && ValidVersion(args[0])
    requires APP_PATH in files && UpdateAppVersion(files[APP_PATH], args[0]).Ok?
    requires MANIFEST_PATH in files && UpdateManifest(files[MANIFEST_PATH], args[0]).Err?
    ensures var r := Bump(files, args, date);
      && r.exitCode == 1 && r.message == MANIFEST_MISSING
      && r.files == files[APP_PATH := UpdateAppVersion(files[APP_PATH], args[0]).value]
  {
    assert APP_PATH[0] != MANIFEST_PATH[0];
  }

  /** The files a successful run leaves: each rewritten once by its own step. */
  lemma BumpFiles(files: map<string, string>, args: seq<string>, date: string)
    requires Bump(files, args, date).exitCode == 0
    ensures |args| > 0 && ValidVersion(args[0])
    ensures APP_PATH in files && MANIFEST_PATH in files && CHANGELOG_PATH in files
    ensures var r := Bump(files, args, date).files;
      && UpdateAppVersion(files[APP_PATH], args[0]) == Ok(r[APP_PATH])
      && UpdateManifest(files[MANIFEST_PATH], args[0]) == Ok(r[MANIFEST_PATH])
      && r[CHANGELOG_PATH] == UpdateChangelog(files[CHANGELOG_PATH], args[0], date, Notes(args[1..]))
      && forall f :: f in files && f !in {APP_PATH, MANIFEST_PATH, CHANGELOG_PATH} ==> r[f] == files[f]
  {
    BumpSucceeds(files, args, date);
    assert APP_PATH[0] != MANIFEST_PATH[0] && APP_PATH[0] != CHANGELOG_PATH[0];
    assert MANIFEST_PATH[0] != CHANGELOG_PATH[0];
    var v, notes := args[0], Notes(args[1..]);
    var f1 := files[APP_PATH := UpdateAppVersion(files[APP_PATH], v).value];
    assert f1[MANIFEST_PATH] == files[MANIFEST_PATH];
    var f2 := f1[MANIFEST_PATH := UpdateManifest(files[MANIFEST_PATH], v).value];
    assert Bump(files, args, date) == WriteChangelog(f2, v, date, notes);
  }

  /** A successful run touches no file but the three it rewrites. */
  lemma BumpOtherFiles(files: map<string, string>, args: seq<string>, date: string, f: string)
    requires Bump(files, args, date).exitCode == 0
    requires f in files && f != APP_PATH && f != MANIFEST_PATH && f != CHANGELOG_PATH
    ensures Bump(files, args, date).files[f] == files[f]
  {
    BumpFiles(files, args, date);
  }

  /** After a successful run, each of the three files carries the new version. */
  lemma BumpWritesVersion(files: map<string, string>, args: seq<string>, date: string)
    requires Bump(files, args, date).exitCode == 0
    ensures var r := Bump(files, args, date).files;
      && CapturedText(APP_VERSION, r[APP_PATH]) == Some(args[0])
      && CapturedText(MANIFEST_VERSION, r[MANIFEST_PATH]) == Some(args[0])
      && Contains(r[CHANGELOG_PATH], Heading(args[0]))
  {
    BumpFiles(files, args, date);
    AppVersionReadBack(files[APP_PATH], args[0]);
    ManifestVersionReadBack(files[MANIFEST_PATH], args[0]);
  }

  lemma WriteChangelogIdempotent(files: map<string, string>, version: string, date: string, date2: string, notes: string)
    requires WriteChangelog(files, version, date, notes).exitCode == 0
    ensures var r := WriteChangelog(files, version, date, notes);
      WriteChangelog(r.files, version, date2, notes) == r
  {
    var r := WriteChangelog(files, version, date, notes);
    UpdateChangelogIdempotent(files[CHANGELOG_PATH], version, date, date2, notes, notes);
    assert r.files[CHANGELOG_PATH := r.files[CHANGELOG_PATH]] == r.files;
  }

  lemma WriteManifestIdempotent(files: map<string, string>, version: string, date: string, date2: string, notes: string)
    requires ValidVersion(version)
    requires WriteManifest(files, version, date, notes).exitCode == 0
    ensures var r := WriteManifest(files, version, date, notes);
      WriteManifest(r.files, version, date2, notes) == r
  {
    var m := UpdateManifest(files[MANIFEST_PATH], version).value;
    var files2 := files[MANIFEST_PATH := m];
    var r := WriteChangelog(files2, version, date, notes);
    assert r.files[MANIFEST_PATH] == m by {
      assert MANIFEST_PATH[0] != CHANGELOG_PATH[0];
    }
    UpdateManifestIdempotent(files[MANIFEST_PATH], version);
    assert r.files[MANIFEST_PATH := m] == r.files;
    WriteChangelogIdempotent(files2, version, date, date2, notes);
  }

  lemma WriteAppIdempotent(files: map<string, string>, version: string, date: string, date2: string, notes: string)
    requires ValidVersion(version)
    requires WriteApp(files, version, date, notes).exitCode == 0
    ensures var r := WriteApp(files, version, date, notes);
      WriteApp(r.files, version, date2, notes) == r
  {
    var a := UpdateAppVersion(files[APP_PATH], version).value;
    var files1 := files[APP_PATH := a];
    var r := WriteManifest(files1, version, date, notes);
    assert r.files[APP_PATH] == a by {
      var m := UpdateManifest(files1[MANIFEST_PATH], version).value;
      assert APP_PATH[0] != MANIFEST_PATH[0] && APP_PATH[0] != CHANGELOG_PATH[0];
      assert WriteChangelog(files1[MANIFEST_PATH := m], version, date, notes).files[APP_PATH] == a;
    }
    UpdateAppVersionIdempotent(files[APP_PATH], version);
    assert r.files[APP_PATH := a] == r.files;
    WriteManifestIdempotent(files1, version, date, date2, notes);
  }

  /** Running the script twice with the same arguments is the same as running it once. */
  lemma BumpIdempotent(files: map<string, string>, args: seq<string>, date: string, date2: string)
    requires Bump(files, args, date).exitCode == 0
    ensures Bump(Bump(files, args, date).files, args, date2) == Bump(files, args, date)
  {
    WriteAppIdempotent(files, args[0], date, date2, Notes(args[1..]));
  }
}
