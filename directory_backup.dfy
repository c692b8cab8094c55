/**
 * The directory backup engine (`backup.js`, the `Backup` singleton).
 *
 * The chosen folder is a map from entry names to files (or sub-folders). A backup writes
 * `punchbuggy-latest.json`, a `punchbuggy-daily-<date>.json` file once per UTC date, prunes
 * the daily files to the fourteen newest and records what it wrote. Every operation is a
 * specification function from one engine state to the next, and the class `Backup`
 * implements each of them step by step on its fields. `performBackup` is split at its first
 * suspension: `PerformBackup` ends with `_busy` set and the reason in flight, and
 * `CompleteBackup` runs the rest (permission, payload, hash, writes, pruning, metadata) as
 * one step, given what the environment answers (`Env`).
 */
module DirectoryBackup {
  import opened Wrappers
  import opened Listeners
  import opened Strings
  import opened Json
  import opened Hashing
  import opened Snapshot
  import opened LexOrder

  const MAX_DAILY_FILES: nat := 14
  const MAX_ENTRY_SNAPSHOTS: nat := 120
  const DAILY_PREFIX := "punchbuggy-daily-"
  const LATEST_FILE := "punchbuggy-latest.json"
  const PAYLOAD_REASON := "punchbuggy-state"

  const MSG_IDLE := "Backups idle"
  const MSG_UNSUPPORTED := "Backups require a compatible browser."
  const MSG_INITIALIZING := "Checking backup folder\U{2026}"
  const MSG_CANCELLED := "Backup folder selection cancelled."
  const MSG_SELECT_FAILED := "Unable to select folder"
  const MSG_DISCONNECTED := "Backup folder disconnected."
  const MSG_CONNECT_FIRST := "Connect a backup folder first."
  const MSG_CONNECT_FOR_AUTO := "Connect a backup folder to enable automatic saves."
  const MSG_NEEDS_PERMISSION := "Backup folder needs permission."
  const MSG_WRITING := "Writing backup\U{2026}"
  const MSG_CURRENT := "Backup already current."
  const MSG_SAVED := "Backup saved."
  const MSG_FAILED := "Backup failed"
  const MSG_NOT_CONNECTED := "No backup folder connected."
  const MSG_RESTORE_FAILED := "Unable to restore backup folder"

  /** An entry of the backup folder. */
  datatype DirEntry = File(contents: string) | Subfolder

  /** The backup metadata `{ lastBackupAt, lastDailyDate, latestHash }`; `None` is `null`. */
  datatype Meta = Meta(lastBackupAt: Option<int>, lastDailyDate: Option<string>, latestHash: Option<string>)

  const EMPTY_META := Meta(None, None, None)

  /** `localStorage['punchbuggy-backup-meta']`: missing, not JSON, or a metadata record. */
  datatype MetaItem = Absent | Corrupt | Parsed(meta: Meta)

  /** What a permission method of the folder handle does when it is called. */
  datatype Answer = Throws | Says(state: string)

  /** `handle.queryPermission` and `handle.requestPermission`; `None` when the handle lacks the method. */
  datatype Permission = Permission(query: Option<Answer>, request: Option<Answer>)

  /** `_status`: `handleName` and `lastBackupAt` are `None` when `null` or absent. */
  datatype Status = Status(code: string, message: string, handleName: Option<string>, lastBackupAt: Option<int>)

  /** The argument of `_updateStatus`; `handleName` is `None` when the update does not name one. */
  datatype StatusUpdate = Report(code: string, message: string, handleName: Option<Option<string>>, lastBackupAt: Option<int>)

  /** The debounce timer `_pendingTimer` and the reason its callback will back up for. */
  datatype Timer = Timer(reason: string, fired: bool)

  /** `showDirectoryPicker`: the folder picked (its name and entries), a cancel, or another failure. */
  datatype Pick = Picked(name: string, contents: map<string, DirEntry>) | Aborted | PickFailed

  /**
   * What the environment answers while a backup runs: the folder's permission methods, the
   * application state, the clock (`toISOString()`, its first ten characters, `Date.now()`),
   * the entries whose write or removal fails, and whether the settings store opens.
   */
  datatype Env = Env(
    perm: Permission,
    read: StateRead,
    stamp: string,
    today: string,
    now: int,
    writeFails: set<string>,
    removeFails: set<string>,
    dbOk: bool)

  /** The parts of the environment fixed for the lifetime of the engine. */
  datatype Config = Config(
    supported: bool,                         // `showDirectoryPicker` exists
    subtle: Option<string -> seq<bv8>>,      // SHA-256, when `crypto.subtle` works
    appVersion: string,                      // `window.PUNCHBUGGY_APP_VERSION`, "" when unset
    hasGetter: bool)                         // `init` received a `getState` function

  /** Everything the engine's operations read or change. */
  datatype Dir = Dir(
    handle: Option<string>,                  // `_handle`, by the folder's name
    files: map<string, DirEntry>,            // the entries of the connected folder
    storedHandle: Option<string>,            // the settings store's `directory` record
    metaRecord: Option<Meta>,                // the settings store's `meta` record
    localMeta: MetaItem,                     // `localStorage['punchbuggy-backup-meta']`
    meta: Meta,                              // `_meta`
    latestHash: string,                      // `_latestHash`, "" for `null`
    busy: bool,
    inFlight: Option<string>,                // the reason of the backup `_busy` waits for
    pending: Option<Timer>,
    status: Status,
    subscribers: map<nat, seq<Status>>)      // each callback and the statuses it received

  // ---------------------------------------------------------------------------------------
  // Permission, payload, files

  /**
   * `_ensurePermission(handle, 'readwrite', request)`: granted when the handle has no
   * `queryPermission` or it answers `granted`; otherwise only a granted request counts, and
   * a request is made only when `request` is set. A method that throws means no permission.
   */
  function EnsurePermission(hasHandle: bool, p: Permission, request: bool): (r: bool)
    ensures r <==> (hasHandle &&
      (p.query.None? || p.query == Some(Says("granted")) ||
       (request && p.query.value.Says? && p.request == Some(Says("granted")))))
  {
    if !hasHandle then false
    else match p.query
      case None => true
      case Some(Throws) => false
      case Some(Says(q)) =>
        if q == "granted" then true
        else if q == "denied" && !request then false
        else if request && p.request.Some? then
          match p.request.value
          case Throws => false
          case Says(answer) => answer == "granted"
        else false
  }

  /** A backup for reason `auto` never asks the user: whatever `requestPermission` would say is not consulted. */
  lemma AutoNeverRequests(hasHandle: bool, p: Permission, other: Option<Answer>)
    ensures EnsurePermission(hasHandle, p, "auto" != "auto") == EnsurePermission(hasHandle, p.(request := other), false)
    ensures EnsurePermission(hasHandle, p, false) ==> p.query.None? || p.query == Some(Says("granted"))
  {
  }

  function AppVersionOr(c: Config): string {
    if c.appVersion != "" then c.appVersion else "dev"
  }

  /** The members of the payload after its `timestamp`. */
  function PayloadRest(c: Config, source: Json): seq<(string, Json)> {
    [("appVersion", JStr(AppVersionOr(c))), ("reason", JStr(PAYLOAD_REASON)),
     ("payload", CloneState(source, MAX_ENTRY_SNAPSHOTS, MAX_ENTRY_SNAPSHOTS))]
  }

  /**
   * `_buildPayload()`, given what `getState` did and the clock's `toISOString()`: `{}` for a
   * falsy state, otherwise the state with its lists cut to 120 entries, wrapped with a
   * timestamp, the application version and a fixed reason. `None` when `getState` threw.
   */
  function BuildPayload(c: Config, read: StateRead, stamp: string): (r: Option<Json>)
    ensures r.None? <==> read.Threw?
    ensures read.Got? && !Truthy(read.value) ==> r == Some(JObj([]))
    ensures read.Got? && Truthy(read.value) ==>
      r.value.JObj? && |r.value.fields| == 4 &&
      r.value.fields[0] == ("timestamp", JStr(stamp)) &&
      r.value.fields[1].0 == "appVersion" && r.value.fields[1].1.JStr? && r.value.fields[1].1.s != "" &&
      r.value.fields[2] == ("reason", JStr(PAYLOAD_REASON)) &&
      r.value.fields[3] == ("payload", CloneState(read.value, MAX_ENTRY_SNAPSHOTS, MAX_ENTRY_SNAPSHOTS))
  {
    match read
    case Threw => None
    case Got(source) =>
      if !Truthy(source) then Some(JObj([]))
      else Some(JObj([("timestamp", JStr(stamp))] + PayloadRest(c, source)))
  }

  /** The text of a payload is its timestamp member followed by a text that does not depend on the clock. */
  lemma PayloadText(c: Config, source: Json, stamp: string)
    requires Truthy(source)
    ensures Serialize(BuildPayload(c, Got(source), stamp).value) ==
      ("{" + Quote("timestamp") + ":") + (Quote(stamp) + ("," + JoinComma(FieldTexts(PayloadRest(c, source))) + "}"))
  {
    PayloadIs(c, source, stamp);
    SerializeFirstMember(BuildPayload(c, Got(source), stamp).value, "timestamp", JStr(stamp), PayloadRest(c, source));
  }

  lemma PayloadIs(c: Config, source: Json, stamp: string)
    requires Truthy(source)
    ensures BuildPayload(c, Got(source), stamp) == Some(JObj([("timestamp", JStr(stamp))] + PayloadRest(c, source)))
  {
  }

  /**
   * The hashed text includes the timestamp, so two payloads taken at different moments never
   * have the same text: deduplication can only match a backup taken with the same timestamp.
   */
  lemma PayloadTextFixesTimestamp(c: Config, s1: Json, s2: Json, t1: string, t2: string)
    requires Truthy(s1) && Truthy(s2)
    requires Serialize(BuildPayload(c, Got(s1), t1).value) == Serialize(BuildPayload(c, Got(s2), t2).value)
    ensures t1 == t2
  {
    PayloadText(c, s1, t1);
    PayloadText(c, s2, t2);
    var head := "{" + Quote("timestamp") + ":";
    var tail1 := "," + JoinComma(FieldTexts(PayloadRest(c, s1))) + "}";
    var tail2 := "," + JoinComma(FieldTexts(PayloadRest(c, s2))) + "}";
    CancelPrefix(head, Quote(t1) + tail1, Quote(t2) + tail2);
    QuotePrefixFree(t1, t2, tail1, tail2);
  }

  /** `hash && this._latestHash && hash === this._latestHash`. */
  predicate IsCurrent(hash: string, latestHash: string) {
    hash != "" && latestHash != "" && hash == latestHash
  }

  /** `_writeFile(name, contents)`: `None` when it throws (a sub-folder of that name, or a failing write). */
  function WriteFile(files: map<string, DirEntry>, name: string, contents: string, fails: set<string>): (r: Option<map<string, DirEntry>>)
    ensures r.None? <==> name in fails || (name in files && files[name].Subfolder?)
    ensures r.Some? ==> r.value.Keys == files.Keys + {name} && r.value[name] == File(contents)
    ensures r.Some? ==> forall n :: n in files && n != name ==> r.value[n] == files[n]
  {
    if name in fails || (name in files && files[name].Subfolder?) then None
    else Some(files[name := File(contents)])
  }

  function DailyName(today: string): (name: string)
    ensures StartsWith(name, DAILY_PREFIX)
  {
    assert (DAILY_PREFIX + today + ".json")[..|DAILY_PREFIX|] == DAILY_PREFIX;
    DAILY_PREFIX + today + ".json"
  }

  lemma LatestIsNotDaily()
    ensures !StartsWith(LATEST_FILE, DAILY_PREFIX)
  {
    assert LATEST_FILE[11] != DAILY_PREFIX[11];
  }

  // ---------------------------------------------------------------------------------------
  // Pruning the daily files

  /** The files of the folder whose names carry the daily prefix. */
  function DailyNames(files: map<string, DirEntry>): (r: set<string>)
    ensures forall n :: n in r <==> n in files && files[n].File? && StartsWith(n, DAILY_PREFIX)
  {
    set n | n in files && files[n].File? && StartsWith(n, DAILY_PREFIX)
  }

  /** The `while` loop of `_pruneDailyBackups` over the sorted names `entries`. */
  function PruneLoop(files: map<string, DirEntry>, entries: seq<string>, fails: set<string>): map<string, DirEntry>
    decreases |entries|
  {
    if |entries| <= MAX_DAILY_FILES || entries[0] in fails then files
    else PruneLoop(files - {entries[0]}, entries[1..], fails)
  }

  /**
   * How many names the loop removes: names are taken from the front while more than fourteen
   * are left, and the first failing removal ends the loop.
   */
  function RemovedCount(entries: seq<string>, fails: set<string>): (k: nat)
    ensures k <= |entries|
    ensures k > 0 ==> |entries| - k >= MAX_DAILY_FILES
    ensures |entries| - k > MAX_DAILY_FILES ==> entries[k] in fails
    ensures forall i :: 0 <= i < k ==> entries[i] !in fails
    decreases |entries|
  {
    if |entries| <= MAX_DAILY_FILES || entries[0] in fails then 0
    else 1 + RemovedCount(entries[1..], fails)
  }

  /** The loop removes exactly the first `RemovedCount` names. */
  lemma {:induction false} PruneLoopRemoves(files: map<string, DirEntry>, entries: seq<string>, fails: set<string>)
    ensures PruneLoop(files, entries, fails) == files - Names(entries[..RemovedCount(entries, fails)])
    decreases |entries|
  {
    var k := RemovedCount(entries, fails);
    if |entries| <= MAX_DAILY_FILES || entries[0] in fails {
      assert Names(entries[..k]) == {};
      assert files - {} == files;
    } else {
      var rest := entries[1..];
      PruneLoopRemoves(files - {entries[0]}, rest, fails);
      assert entries[..k] == [entries[0]] + rest[..k - 1];
      assert Names(entries[..k]) == {entries[0]} + Names(rest[..k - 1]);
      assert (files - {entries[0]}) - Names(rest[..k - 1]) == files - Names(entries[..k]);
    }
  }

  /** `_pruneDailyBackups()`: the daily names sorted by the default sort, then the loop. */
  ghost function PruneSpec(files: map<string, DirEntry>, fails: set<string>): map<string, DirEntry> {
    PruneLoop(files, SortSet(DailyNames(files)), fails)
  }

  /** Pruning removes daily files only, and changes no entry it keeps. */
  lemma PruneTouchesOnlyDaily(files: map<string, DirEntry>, fails: set<string>)
    ensures var r := PruneSpec(files, fails);
      (forall n :: n in r ==> n in files && r[n] == files[n]) &&
      (forall n :: n in files && n !in DailyNames(files) ==> n in r)
  {
    var s := SortSet(DailyNames(files));
    PruneLoopRemoves(files, s, fails);
  }

  /**
   * With no failing removal at most fourteen daily files remain: exactly fourteen when there
   * were more, and all of them when there were not.
   */
  lemma PruneKeepsFourteen(files: map<string, DirEntry>, fails: set<string>)
    requires DailyNames(files) !! fails
    ensures var r := PruneSpec(files, fails);
      |DailyNames(r)| == if |DailyNames(files)| <= MAX_DAILY_FILES then |DailyNames(files)| else MAX_DAILY_FILES
    ensures |DailyNames(PruneSpec(files, fails))| <= MAX_DAILY_FILES
  {
    var s := SortSet(DailyNames(files));
    var k := RemovedCount(s, fails);
    RemovedWithoutFailures(s, fails);
    DailyAfterPrune(files, fails);
    SortedTailOf(s, k);
    SortedDistinctCard(s[k..]);
  }

  /** Without failing removals the loop stops exactly when fourteen names are left. */
  lemma RemovedWithoutFailures(entries: seq<string>, fails: set<string>)
    requires forall m :: 0 <= m < |entries| ==> entries[m] !in fails
    ensures RemovedCount(entries, fails) == if |entries| <= MAX_DAILY_FILES then 0 else |entries| - MAX_DAILY_FILES
  {
  }

  lemma DailyNamesMinus(files: map<string, DirEntry>, gone: set<string>)
    ensures DailyNames(files - gone) == DailyNames(files) - gone
  {
  }

  /** The front and the rest of a sorted list share no name. */
  lemma SortedSplit(s: seq<string>, k: nat)
    requires Sorted(s) && k <= |s|
    ensures Names(s[..k]) !! Names(s[k..])
    ensures Names(s) - Names(s[..k]) == Names(s[k..])
  {
    forall n | n in s[k..]
      ensures n !in s[..k]
    {
      var j :| 0 <= j < |s[k..]| && s[k..][j] == n;
      assert s[k + j] == n;
      if n in s[..k] {
        var i :| 0 <= i < k && s[..k][i] == n;
        assert s[i] == n;
        NameLessIrreflexive(n);
      }
    }
    assert s == s[..k] + s[k..];
  }

  /** The daily files that remain are the names after the first `RemovedCount` of the sorted list. */
  lemma DailyAfterPrune(files: map<string, DirEntry>, fails: set<string>)
    ensures var s := SortSet(DailyNames(files));
      DailyNames(PruneSpec(files, fails)) == Names(s[RemovedCount(s, fails)..])
    ensures var s := SortSet(DailyNames(files));
      PruneSpec(files, fails) == files - Names(s[..RemovedCount(s, fails)])
  {
    var s := SortSet(DailyNames(files));
    var k := RemovedCount(s, fails);
    PruneLoopRemoves(files, s, fails);
    DailyNamesMinus(files, Names(s[..k]));
    assert DailyNames(files) == Names(s);
    SortedSplit(s, k);
  }

  lemma InRest(s: seq<string>, k: nat, j: nat)
    requires k <= j < |s|
    ensures s[j] in Names(s) && s[j] in Names(s[k..])
  {
    assert s[k..][j - k] == s[j];
  }

  lemma SortedTailOf(s: seq<string>, k: nat)
    requires Sorted(s) && k <= |s|
    ensures Sorted(s[k..])
  {
  }

  /** Every daily file pruning removes sorts before every daily file it keeps: the oldest go first. */
  lemma PruneRemovesOldest(files: map<string, DirEntry>, fails: set<string>, x: string, y: string)
    requires x in DailyNames(files) && x !in PruneSpec(files, fails)
    requires y in DailyNames(PruneSpec(files, fails))
    ensures NameLess(x, y)
  {
    var s := SortSet(DailyNames(files));
    var k := RemovedCount(s, fails);
    DailyAfterPrune(files, fails);
    SortedFrontFirst(s, k, x, y);
  }

  lemma SortedFrontFirst(s: seq<string>, k: nat, x: string, y: string)
    requires Sorted(s) && k <= |s| && x in Names(s[..k]) && y in Names(s[k..])
    ensures NameLess(x, y)
  {
    var i :| 0 <= i < k && s[..k][i] == x;
    var j :| 0 <= j < |s[k..]| && s[k..][j] == y;
    assert s[i] == x && s[k + j] == y;
  }

  /**
   * A removal that fails ends the pruning: the failing name and every name sorted after it
   * stay, and nothing is thrown (the result is a folder, never an error).
   */
  lemma PruneStopsAtFailure(files: map<string, DirEntry>, fails: set<string>, i: nat)
    requires var s := SortSet(DailyNames(files)); i < |s| && s[i] in fails
    ensures var s := SortSet(DailyNames(files));
      forall j :: i <= j < |s| ==> s[j] in PruneSpec(files, fails)
  {
    var s := SortSet(DailyNames(files));
    var k := RemovedCount(s, fails);
    DailyAfterPrune(files, fails);
    SortedSplit(s, k);
    assert k <= i;
    forall j | i <= j < |s|
      ensures s[j] in PruneSpec(files, fails)
    {
      InRest(s, k, j);
    }
  }

  // ---------------------------------------------------------------------------------------
  // Status

  /** JavaScript truthiness of a time stamp (`null`, absent and `0` are falsy). */
  predicate TruthyTime(t: Option<int>) {
    t.Some? && t.value != 0
  }

  /** `this._meta.latestHash || null`, with "" for `null`. */
  function HashOf(m: Meta): string {
    if m.latestHash.Some? then m.latestHash.value else ""
  }

  /**
   * `_updateStatus(u)`: the update over the defaults; the connected folder's name unless the
   * update names one; the last backup time of the metadata when the update has no truthy one;
   * then every callback is told the new status.
   */
  function WithStatus(e: Dir, u: StatusUpdate): (r: Dir)
    ensures r == e.(status := r.status, subscribers := r.subscribers)
    ensures r.status.code == u.code && r.status.message == u.message
    ensures r.status.handleName == if u.handleName.Some? then u.handleName.value else e.handle
    ensures TruthyTime(u.lastBackupAt) ==> r.status.lastBackupAt == u.lastBackupAt
    ensures !TruthyTime(u.lastBackupAt) && TruthyTime(e.meta.lastBackupAt) ==> r.status.lastBackupAt == e.meta.lastBackupAt
    ensures TruthyTime(r.status.lastBackupAt) <==> TruthyTime(u.lastBackupAt) || TruthyTime(e.meta.lastBackupAt)
    ensures r.subscribers == Broadcast(e.subscribers, r.status)
  {
    var at := if !TruthyTime(u.lastBackupAt) && TruthyTime(e.meta.lastBackupAt) then e.meta.lastBackupAt else u.lastBackupAt;
    var s := Status(u.code, u.message, u.handleName.GetOr(e.handle), at);
    e.(status := s, subscribers := Broadcast(e.subscribers, s))
  }

  /** `onStatusChange(cb)`: the callback joins the set and is told the current status at once. */
  function Subscribe(e: Dir, id: nat): (r: Dir)
    ensures r.subscribers.Keys == e.subscribers.Keys + {id}
    ensures r.subscribers[id] == (if id in e.subscribers then e.subscribers[id] else []) + [e.status]
    ensures r == e.(subscribers := r.subscribers)
  {
    e.(subscribers := e.subscribers[id := (if id in e.subscribers then e.subscribers[id] else []) + [e.status]])
  }

  /** The function `onStatusChange` returns: the callback leaves the set. */
  function Unsubscribe(e: Dir, id: nat): (r: Dir)
    ensures r.subscribers.Keys == e.subscribers.Keys - {id}
    ensures r == e.(subscribers := r.subscribers)
  {
    e.(subscribers := e.subscribers - {id})
  }

  function ConnectedTo(name: string): string {
    "Connected to \U{201C}" + name + "\U{201D}"
  }

  function Reauthorize(name: string): string {
    "Re-authorize access to \U{201C}" + name + "\U{201D}."
  }

  // ---------------------------------------------------------------------------------------
  // Operations

  /** `_loadMeta()`: the stored metadata when it parses, the empty record otherwise. */
  function LoadMeta(item: MetaItem): Meta {
    if item.Parsed? then item.meta else EMPTY_META
  }

  /** The state before `init`. */
  function Fresh(localMeta: MetaItem, storedHandle: Option<string>, metaRecord: Option<Meta>,
                 files: map<string, DirEntry>): Dir {
    Dir(None, files, storedHandle, metaRecord, localMeta, EMPTY_META, "", false, None, None,
        Status("idle", MSG_IDLE, None, None), map[])
  }

  /** The part of `init` before the folder is looked for: the listener and the metadata. */
  function LoadLocalSpec(e: Dir, listener: Option<nat>): Dir {
    var e1 := if listener.Some? then Subscribe(e, listener.value) else e;
    var m := LoadMeta(e1.localMeta);
    e1.(meta := m, latestHash := HashOf(m))
  }

  /** `_restoreHandle()`: reconnect the stored folder, if there is one and it is still allowed. */
  function RestoreHandleSpec(e: Dir, dbOk: bool, perm: Permission): Dir {
    if !dbOk then WithStatus(e, Report("error", MSG_RESTORE_FAILED, None, None))
    else match e.storedHandle
      case None => WithStatus(e, Report("no-handle", MSG_NOT_CONNECTED, None, None))
      case Some(name) =>
        var e1 := e.(handle := Some(name));
        if !EnsurePermission(true, perm, false) then
          WithStatus(e1, Report("needs-permission", Reauthorize(name), Some(Some(name)), None))
        else
          WithStatus(e1, Report("ready", ConnectedTo(name) + ".", Some(Some(name)), e1.meta.lastBackupAt))
  }

  /** `init(options)`, from the stored records and the folder as they are found. */
  function InitSpec(c: Config, localMeta: MetaItem, storedHandle: Option<string>, metaRecord: Option<Meta>,
                    files: map<string, DirEntry>, listener: Option<nat>, dbOk: bool, perm: Permission): Dir {
    var e := LoadLocalSpec(Fresh(localMeta, storedHandle, metaRecord, files), listener);
    if !c.supported then WithStatus(e, Report("unsupported", MSG_UNSUPPORTED, None, None))
    else RestoreHandleSpec(WithStatus(e, Report("initializing", MSG_INITIALIZING, None, None)), dbOk, perm)
  }

  /**
   * `performBackup(reason)` up to its first suspension: the checks, then `_busy` is set and
   * the reason is in flight.
   */
  function PerformBackupSpec(c: Config, e: Dir, reason: string): Dir {
    if e.handle.None? then WithStatus(e, Report("no-handle", MSG_CONNECT_FOR_AUTO, None, None))
    else if !c.hasGetter || e.busy then e
    else e.(busy := true, inFlight := Some(reason))
  }

  /** `chooseDirectory()`; `dbOk` says whether storing the handle worked. */
  function ChooseDirectorySpec(c: Config, e: Dir, pick: Pick, dbOk: bool): Dir {
    if !c.supported then WithStatus(e, Report("unsupported", MSG_UNSUPPORTED, None, None))
    else match pick
      case Aborted => WithStatus(e, Report("cancelled", MSG_CANCELLED, None, None))
      case PickFailed => WithStatus(e, Report("error", MSG_SELECT_FAILED, None, None))
      case Picked(name, contents) =>
        if !dbOk then WithStatus(e, Report("error", MSG_SELECT_FAILED, None, None))
        else
          var e1 := e.(storedHandle := Some(name), handle := Some(name), files := contents);
          var e2 := WithStatus(e1, Report("ready", ConnectedTo(name), Some(Some(name)), None));
          PerformBackupSpec(c, e2, "initial-setup")
  }

  /**
   * `clearBackupData()`: forget the stored folder and metadata (when the store opens), then
   * the folder, the metadata and the hash in memory. A pending timer is left armed.
   */
  function ClearBackupDataSpec(e: Dir, dbOk: bool): Dir {
    WithStatus(Cleared(e, dbOk), Report("disconnected", MSG_DISCONNECTED, Some(None), None))
  }

  /** What `clearBackupData` forgets before it reports: the folder, the metadata and the hash. */
  function Cleared(e: Dir, dbOk: bool): Dir {
    var e1 := if dbOk then e.(storedHandle := None, metaRecord := None) else e;
    e1.(handle := None, meta := EMPTY_META, latestHash := "", localMeta := Absent)
  }

  /** `triggerManualBackup(reason)`. */
  function TriggerManualBackupSpec(c: Config, e: Dir, reason: string): Dir {
    if e.handle.None? then WithStatus(e, Report("no-handle", MSG_CONNECT_FIRST, None, None))
    else PerformBackupSpec(c, e, reason)
  }

  /** `handleStoreSave(reason)`: (re)arm the debounce timer when a folder is connected. */
  function HandleStoreSaveSpec(c: Config, e: Dir, reason: string): Dir {
    if e.handle.None? || !c.supported then e else e.(pending := Some(Timer(reason, false)))
  }

  /**
   * The debounce timer fires and starts a backup for its reason. `_pendingTimer` keeps the id
   * of the spent timer; a timer fires once.
   */
  function FireTimerSpec(c: Config, e: Dir): Dir {
    match e.pending
    case Some(t) =>
      if t.fired then e else PerformBackupSpec(c, e.(pending := Some(t.(fired := true))), t.reason)
    case None => e
  }

  /** `hydrateMetaFromDb()`: the metadata record of the settings store replaces the one in memory. */
  function HydrateSpec(e: Dir, dbOk: bool): Dir {
    if dbOk && e.metaRecord.Some? then
      var m := e.metaRecord.value;
      e.(meta := m, latestHash := HashOf(m), localMeta := Parsed(m))
    else e
  }

  /** `this._meta.x || null` for each member, as `_saveMeta` stores the record. */
  function Persisted(m: Meta): Meta {
    Meta(if TruthyTime(m.lastBackupAt) then m.lastBackupAt else None,
         if m.lastDailyDate == Some("") then None else m.lastDailyDate,
         if m.latestHash == Some("") then None else m.latestHash)
  }

  /** `_saveMeta()`: the settings store (when it opens) and `localStorage` get the metadata. */
  function SaveMetaSpec(e: Dir, dbOk: bool): Dir {
    e.(metaRecord := if dbOk then Some(Persisted(e.meta)) else e.metaRecord, localMeta := Parsed(e.meta))
  }

  /** An exception inside `performBackup`: status `error`. */
  function Failed(e: Dir): Dir {
    WithStatus(e, Report("error", MSG_FAILED, Some(e.handle), None))
  }

  /** After the files are written: prune, record the backup, save the metadata, report success. */
  ghost function SaveSpec(e: Dir, hash: string, env: Env): Dir {
    var pruned := e.(files := PruneSpec(e.files, env.removeFails));
    var m := pruned.meta.(lastBackupAt := Some(env.now), latestHash := Some(hash));
    var saved := SaveMetaSpec(pruned.(meta := m, latestHash := hash), env.dbOk);
    WithStatus(saved, Report("success", MSG_SAVED, Some(saved.handle), Some(env.now)))
  }

  /**
   * The write path: the latest file always, the daily file when the date changed. `_writeFile`
   * writes into the folder connected now: when it was forgotten meanwhile, the write throws.
   */
  ghost function WriteSpec(e: Dir, json: string, hash: string, env: Env): Dir {
    if e.handle.None? then Failed(e)
    else match WriteFile(e.files, LATEST_FILE, json, env.writeFails)
    case None => Failed(e)
    case Some(f1) =>
      if e.meta.lastDailyDate != Some(env.today) then
        match WriteFile(f1, DailyName(env.today), json, env.writeFails)
        case None => Failed(e.(files := f1))
        case Some(f2) => SaveSpec(e.(files := f2, meta := e.meta.(lastDailyDate := Some(env.today))), hash, env)
      else SaveSpec(e.(files := f1), hash, env)
  }

  /** The `Date.now()` fallback of the `up-to-date` status. */
  function LastOrNow(m: Meta, now: int): int {
    if TruthyTime(m.lastBackupAt) then m.lastBackupAt.value else now
  }

  /**
   * `performBackup` after its first suspension, up to the `finally`. `_ensurePermission` was
   * handed `this._handle` and tested it before that suspension, when a backup starts only with
   * a folder connected: the decision sees a handle, and the answers `env.perm` are that
   * folder's, even if the folder was forgotten or replaced since.
   */
  ghost function AttemptSpec(c: Config, e: Dir, reason: string, env: Env): Dir {
    if !EnsurePermission(true, env.perm, reason != "auto") then
      WithStatus(e, Report("needs-permission", MSG_NEEDS_PERMISSION, Some(e.handle), None))
    else
      var e1 := WithStatus(e, Report("busy", MSG_WRITING, Some(e.handle), None));
      match BuildPayload(c, env.read, env.stamp)
      case None => Failed(e1)
      case Some(payload) =>
        var json := Serialize(payload);
        var hash := Digest(c.subtle, json, Signed);
        if IsCurrent(hash, e1.latestHash) then
          WithStatus(e1, Report("up-to-date", MSG_CURRENT, Some(e1.handle), Some(LastOrNow(e1.meta, env.now))))
        else WriteSpec(e1, json, hash, env)
  }

  /** The rest of `performBackup`: the attempt, then `_busy` is cleared on every exit. */
  ghost function CompleteSpec(c: Config, e: Dir, env: Env): Dir
    requires e.inFlight.Some?
  {
    AttemptSpec(c, e, e.inFlight.value, env).(busy := false, inFlight := None)
  }

  // ---------------------------------------------------------------------------------------
  // Properties of the operations

  /** The invariant the engine keeps. */
  predicate DirValid(c: Config, e: Dir) {
    (e.busy <==> e.inFlight.Some?) &&
    (e.busy ==> c.hasGetter) &&
    (e.pending.Some? ==> c.supported) &&
    e.latestHash == HashOf(e.meta)
  }

  lemma InitValid(c: Config, localMeta: MetaItem, storedHandle: Option<string>, metaRecord: Option<Meta>,
                  files: map<string, DirEntry>, listener: Option<nat>, dbOk: bool, perm: Permission)
    ensures var e := InitSpec(c, localMeta, storedHandle, metaRecord, files, listener, dbOk, perm);
      DirValid(c, e) && !e.busy && e.pending.None?
  {
    var e := LoadLocalSpec(Fresh(localMeta, storedHandle, metaRecord, files), listener);
    LoadLocalValid(c, Fresh(localMeta, storedHandle, metaRecord, files), listener);
    if !c.supported {
      StatusKeepsValid(c, e, Report("unsupported", MSG_UNSUPPORTED, None, None));
    } else {
      var e1 := WithStatus(e, Report("initializing", MSG_INITIALIZING, None, None));
      StatusKeepsValid(c, e, Report("initializing", MSG_INITIALIZING, None, None));
      RestoreKeepsValid(c, e1, dbOk, perm);
    }
  }

  lemma LoadLocalValid(c: Config, e: Dir, listener: Option<nat>)
    requires !e.busy && e.inFlight.None? && e.pending.None?
    ensures var r := LoadLocalSpec(e, listener);
      DirValid(c, r) && !r.busy && r.pending.None?
  {
  }

  lemma StatusKeepsValid(c: Config, e: Dir, u: StatusUpdate)
    requires DirValid(c, e)
    ensures var r := WithStatus(e, u);
      DirValid(c, r) && r.busy == e.busy && r.pending == e.pending
  {
  }

  lemma RestoreKeepsValid(c: Config, e: Dir, dbOk: bool, perm: Permission)
    requires DirValid(c, e)
    ensures var r := RestoreHandleSpec(e, dbOk, perm);
      DirValid(c, r) && r.busy == e.busy && r.pending == e.pending
  {
    if dbOk && e.storedHandle.Some? {
      StatusKeepsValid(c, e.(handle := e.storedHandle), Report("ready", ConnectedTo(e.storedHandle.value) + ".", Some(e.storedHandle), e.meta.lastBackupAt));
      StatusKeepsValid(c, e.(handle := e.storedHandle), Report("needs-permission", Reauthorize(e.storedHandle.value), Some(e.storedHandle), None));
    }
  }

  lemma PerformBackupValid(c: Config, e: Dir, reason: string)
    requires DirValid(c, e)
    ensures DirValid(c, PerformBackupSpec(c, e, reason))
  {
  }

  lemma ChooseDirectoryValid(c: Config, e: Dir, pick: Pick, dbOk: bool)
    requires DirValid(c, e)
    ensures DirValid(c, ChooseDirectorySpec(c, e, pick, dbOk))
  {
    if c.supported && pick.Picked? && dbOk {
      var e1 := e.(storedHandle := Some(pick.name), handle := Some(pick.name), files := pick.contents);
      var e2 := WithStatus(e1, Report("ready", ConnectedTo(pick.name), Some(Some(pick.name)), None));
      PerformBackupValid(c, e2, "initial-setup");
    }
  }

  lemma ClearBackupDataValid(c: Config, e: Dir, dbOk: bool)
    requires DirValid(c, e)
    ensures DirValid(c, ClearBackupDataSpec(e, dbOk))
  {
  }

  lemma TriggerManualBackupValid(c: Config, e: Dir, reason: string)
    requires DirValid(c, e)
    ensures DirValid(c, TriggerManualBackupSpec(c, e, reason))
  {
  }

  lemma HandleStoreSaveValid(c: Config, e: Dir, reason: string)
    requires DirValid(c, e)
    ensures DirValid(c, HandleStoreSaveSpec(c, e, reason))
  {
  }

  lemma FireTimerValid(c: Config, e: Dir)
    requires DirValid(c, e)
    ensures DirValid(c, FireTimerSpec(c, e))
  {
    if e.pending.Some? && !e.pending.value.fired {
      PerformBackupValid(c, e.(pending := Some(e.pending.value.(fired := true))), e.pending.value.reason);
    }
  }

  lemma HydrateValid(c: Config, e: Dir, dbOk: bool)
    requires DirValid(c, e)
    ensures DirValid(c, HydrateSpec(e, dbOk))
  {
  }

  /** The part of a backup after its suspension leaves `_busy`, the timer and the hash invariant alone. */
  lemma AttemptKeeps(c: Config, e: Dir, reason: string, env: Env)
    requires e.latestHash == HashOf(e.meta)
    ensures var r := AttemptSpec(c, e, reason, env);
      r.busy == e.busy && r.inFlight == e.inFlight && r.pending == e.pending && r.latestHash == HashOf(r.meta)
  {
    if EnsurePermission(true, env.perm, reason != "auto") {
      var e1 := WithStatus(e, Report("busy", MSG_WRITING, Some(e.handle), None));
      if BuildPayload(c, env.read, env.stamp).Some? {
        var json := Serialize(BuildPayload(c, env.read, env.stamp).value);
        WriteKeeps(e1, json, Digest(c.subtle, json, Signed), env);
      }
    }
  }

  lemma WriteKeeps(e: Dir, json: string, hash: string, env: Env)
    requires e.latestHash == HashOf(e.meta)
    ensures var r := WriteSpec(e, json, hash, env);
      r.busy == e.busy && r.inFlight == e.inFlight && r.pending == e.pending && r.latestHash == HashOf(r.meta)
  {
    if e.handle.None? {
      FailedKeeps(e);
    } else {
      match WriteFile(e.files, LATEST_FILE, json, env.writeFails)
      case None => FailedKeeps(e);
      case Some(f1) =>
        if e.meta.lastDailyDate != Some(env.today) {
          match WriteFile(f1, DailyName(env.today), json, env.writeFails)
          case None => FailedKeeps(e.(files := f1));
          case Some(f2) => SaveKeeps(e.(files := f2, meta := e.meta.(lastDailyDate := Some(env.today))), hash, env);
        } else {
          SaveKeeps(e.(files := f1), hash, env);
        }
    }
  }

  lemma FailedKeeps(e: Dir)
    ensures var r := Failed(e);
      r.busy == e.busy && r.inFlight == e.inFlight && r.pending == e.pending && r.latestHash == e.latestHash && r.meta == e.meta
  {
  }

  /** Saving prunes, records the hash and the time in the metadata, and reports success. */
  lemma SaveKeeps(e: Dir, hash: string, env: Env)
    ensures var r := SaveSpec(e, hash, env);
      && r.files == PruneSpec(e.files, env.removeFails)
      && r.meta == e.meta.(lastBackupAt := Some(env.now), latestHash := Some(hash))
      && r.latestHash == hash && r.localMeta == Parsed(r.meta)
      && r.status == Status("success", MSG_SAVED, e.handle, Some(env.now))
      && r.busy == e.busy && r.inFlight == e.inFlight && r.pending == e.pending && r.latestHash == HashOf(r.meta)
  {
  }

  /** A completed backup leaves the engine valid and not busy, whatever happened on the way. */
  lemma CompletePreservesValid(c: Config, e: Dir, env: Env)
    requires DirValid(c, e) && e.inFlight.Some?
    ensures var r := CompleteSpec(c, e, env);
      DirValid(c, r) && !r.busy && r.inFlight.None?
  {
    AttemptKeeps(c, e, e.inFlight.value, env);
  }

  /** Without a folder, a backup reports `no-handle` and starts nothing. */
  lemma NoHandleStartsNothing(c: Config, e: Dir, reason: string)
    requires e.handle.None?
    ensures var r := PerformBackupSpec(c, e, reason);
      r.status.code == "no-handle" && r.busy == e.busy && r.inFlight == e.inFlight && r.files == e.files
  {
  }

  /** A busy engine returns at once: nothing at all changes. */
  lemma BusyIsNoOp(c: Config, e: Dir, reason: string)
    requires e.busy && e.handle.Some?
    ensures PerformBackupSpec(c, e, reason) == e
  {
  }

  /** A backup that finds its hash already recorded reports `up-to-date` and writes nothing. */
  lemma CurrentWritesNothing(c: Config, e: Dir, env: Env)
    requires e.inFlight.Some?
    requires EnsurePermission(true, env.perm, e.inFlight.value != "auto")
    requires BuildPayload(c, env.read, env.stamp).Some?
    requires IsCurrent(Digest(c.subtle, Serialize(BuildPayload(c, env.read, env.stamp).value), Signed), e.latestHash)
    ensures var r := CompleteSpec(c, e, env);
      r.files == e.files && r.meta == e.meta && r.metaRecord == e.metaRecord && r.localMeta == e.localMeta &&
      r.latestHash == e.latestHash && r.status.code == "up-to-date" && !r.busy &&
      r.status.lastBackupAt == Some(LastOrNow(e.meta, env.now))
  {
  }

  /** Without permission nothing is written and the status asks for it. */
  lemma NoPermissionWritesNothing(c: Config, e: Dir, env: Env)
    requires e.inFlight.Some?
    requires !EnsurePermission(true, env.perm, e.inFlight.value != "auto")
    ensures var r := CompleteSpec(c, e, env);
      r.files == e.files && r.meta == e.meta && r.metaRecord == e.metaRecord &&
      r.status.code == "needs-permission" && !r.busy
  {
  }

  /**
   * A backup that writes both files records it: the latest file holds the payload text, the
   * metadata and `_latestHash` agree on the new hash, the daily date is today's, the last
   * backup time is now and the status says `success`. Entries other than daily files are kept.
   */
  lemma WriteSucceeds(c: Config, e: Dir, env: Env)
    requires e.inFlight.Some? && e.handle.Some?
    requires EnsurePermission(true, env.perm, e.inFlight.value != "auto")
    requires BuildPayload(c, env.read, env.stamp).Some?
    requires var json := Serialize(BuildPayload(c, env.read, env.stamp).value);
      !IsCurrent(Digest(c.subtle, json, Signed), e.latestHash)
    requires LATEST_FILE !in env.writeFails && DailyName(env.today) !in env.writeFails
    requires LATEST_FILE !in e.files || e.files[LATEST_FILE].File?
    requires DailyName(env.today) !in e.files || e.files[DailyName(env.today)].File?
    ensures var r := CompleteSpec(c, e, env);
      var json := Serialize(BuildPayload(c, env.read, env.stamp).value);
      var hash := Digest(c.subtle, json, Signed);
      LATEST_FILE in r.files && r.files[LATEST_FILE] == File(json) &&
      r.meta == e.meta.(lastBackupAt := Some(env.now), latestHash := Some(hash), lastDailyDate := Some(env.today)) &&
      r.latestHash == hash && r.localMeta == Parsed(r.meta) &&
      r.status == Status("success", MSG_SAVED, e.handle, Some(env.now)) && !r.busy &&
      (forall n :: n in e.files && n != LATEST_FILE && n !in DailyNames(e.files) && n != DailyName(env.today) ==>
         n in r.files && r.files[n] == e.files[n])
  {
    var json := Serialize(BuildPayload(c, env.read, env.stamp).value);
    var hash := Digest(c.subtle, json, Signed);
    var e1 := WithStatus(e, Report("busy", MSG_WRITING, Some(e.handle), None));
    assert AttemptSpec(c, e, e.inFlight.value, env) == WriteSpec(e1, json, hash, env);
    WriteSpecFiles(e1, json, hash, env);
    WriteSpecRecord(e1, json, hash, env);
  }

  /** Both writes succeed: the latest file holds the text, and no other entry but daily files changes. */
  lemma WriteSpecFiles(e: Dir, json: string, hash: string, env: Env)
    requires e.handle.Some?
    requires LATEST_FILE !in env.writeFails && DailyName(env.today) !in env.writeFails
    requires LATEST_FILE !in e.files || e.files[LATEST_FILE].File?
    requires DailyName(env.today) !in e.files || e.files[DailyName(env.today)].File?
    ensures var r := WriteSpec(e, json, hash, env);
      LATEST_FILE in r.files && r.files[LATEST_FILE] == File(json) &&
      (forall n :: n in e.files && n != LATEST_FILE && n !in DailyNames(e.files) && n != DailyName(env.today) ==>
         n in r.files && r.files[n] == e.files[n])
  {
    var f1 := WriteFile(e.files, LATEST_FILE, json, env.writeFails).value;
    var f2 := if e.meta.lastDailyDate != Some(env.today) then WriteFile(f1, DailyName(env.today), json, env.writeFails).value else f1;
    WrittenFiles(e, json, hash, env, f2);
    PruneAfterWrites(e.files, f2, json, env);
  }

  /** The entries of the folder once both writes succeeded, before pruning. */
  lemma WrittenFiles(e: Dir, json: string, hash: string, env: Env, written: map<string, DirEntry>)
    requires e.handle.Some?
    requires LATEST_FILE !in env.writeFails && DailyName(env.today) !in env.writeFails
    requires LATEST_FILE !in e.files || e.files[LATEST_FILE].File?
    requires DailyName(env.today) !in e.files || e.files[DailyName(env.today)].File?
    requires var f1 := WriteFile(e.files, LATEST_FILE, json, env.writeFails).value;
      written == if e.meta.lastDailyDate != Some(env.today) then WriteFile(f1, DailyName(env.today), json, env.writeFails).value else f1
    ensures WriteSpec(e, json, hash, env).files == PruneSpec(written, env.removeFails)
    ensures LATEST_FILE in written && written[LATEST_FILE] == File(json)
    ensures forall n :: n in e.files && n != LATEST_FILE && n != DailyName(env.today) ==> n in written && written[n] == e.files[n]
  {
    var f1 := WriteFile(e.files, LATEST_FILE, json, env.writeFails).value;
    if e.meta.lastDailyDate != Some(env.today) {
      SaveKeeps(e.(files := written, meta := e.meta.(lastDailyDate := Some(env.today))), hash, env);
    } else {
      SaveKeeps(e.(files := f1), hash, env);
    }
  }

  /** Both writes succeed: the metadata records the backup and the status reports it. */
  lemma WriteSpecRecord(e: Dir, json: string, hash: string, env: Env)
    requires e.handle.Some?
    requires LATEST_FILE !in env.writeFails && DailyName(env.today) !in env.writeFails
    requires LATEST_FILE !in e.files || e.files[LATEST_FILE].File?
    requires DailyName(env.today) !in e.files || e.files[DailyName(env.today)].File?
    ensures var r := WriteSpec(e, json, hash, env);
      r.meta == e.meta.(lastBackupAt := Some(env.now), latestHash := Some(hash), lastDailyDate := Some(env.today)) &&
      r.latestHash == hash && r.localMeta == Parsed(r.meta) &&
      r.status == Status("success", MSG_SAVED, e.handle, Some(env.now)) && r.busy == e.busy
  {
    var f1 := WriteFile(e.files, LATEST_FILE, json, env.writeFails).value;
    if e.meta.lastDailyDate != Some(env.today) {
      var f2 := WriteFile(f1, DailyName(env.today), json, env.writeFails).value;
      SaveKeeps(e.(files := f2, meta := e.meta.(lastDailyDate := Some(env.today))), hash, env);
    } else {
      SaveKeeps(e.(files := f1), hash, env);
    }
  }

  /** Pruning after the writes keeps the latest file and every entry that is not a daily file. */
  lemma PruneAfterWrites(files: map<string, DirEntry>, written: map<string, DirEntry>, json: string, env: Env)
    requires LATEST_FILE in written && written[LATEST_FILE] == File(json)
    requires forall n :: n in files && n != LATEST_FILE && n != DailyName(env.today) ==> n in written && written[n] == files[n]
    ensures var r := PruneSpec(written, env.removeFails);
      LATEST_FILE in r && r[LATEST_FILE] == File(json) &&
      (forall n :: n in files && n != LATEST_FILE && n !in DailyNames(files) && n != DailyName(env.today) ==>
         n in r && r[n] == files[n])
  {
    LatestIsNotDaily();
    PruneTouchesOnlyDaily(written, env.removeFails);
  }

  /**
   * A folder forgotten while a backup awaits its permission answer: the decision was made for
   * the old folder, so the backup goes on, and its first write throws. The status is `error`,
   * no file is written and no backup is recorded.
   */
  lemma ClearDuringBackupFails(c: Config, e: Dir, dbOk: bool, env: Env)
    requires e.handle.Some? && c.hasGetter && !e.busy
    requires EnsurePermission(true, env.perm, true)
    requires BuildPayload(c, env.read, env.stamp).Some?
    ensures var started := PerformBackupSpec(c, e, "manual");
      var r := CompleteSpec(c, ClearBackupDataSpec(started, dbOk), env);
      && started.inFlight == Some("manual")
      && r.status.code == "error" && r.status.message == MSG_FAILED && r.status.handleName == None
      && r.files == e.files && r.meta == EMPTY_META && r.latestHash == "" && !r.busy
  {
    var started := PerformBackupSpec(c, e, "manual");
    var cleared := ClearBackupDataSpec(started, dbOk);
    var json := Serialize(BuildPayload(c, env.read, env.stamp).value);
    var e1 := WithStatus(cleared, Report("busy", MSG_WRITING, Some(cleared.handle), None));
    assert !IsCurrent(Digest(c.subtle, json, Signed), e1.latestHash);
    assert AttemptSpec(c, cleared, "manual", env) == Failed(e1);
  }

  /** When today's daily file was already written, no daily file is added or changed. */
  lemma SameDayWritesNoDaily(c: Config, e: Dir, env: Env)
    requires e.inFlight.Some? && e.meta.lastDailyDate == Some(env.today)
    ensures var r := CompleteSpec(c, e, env);
      forall n :: n in DailyNames(r.files) ==> n in e.files && r.files[n] == e.files[n]
  {
    if EnsurePermission(true, env.perm, e.inFlight.value != "auto") && BuildPayload(c, env.read, env.stamp).Some? {
      var json := Serialize(BuildPayload(c, env.read, env.stamp).value);
      var hash := Digest(c.subtle, json, Signed);
      var e1 := WithStatus(e, Report("busy", MSG_WRITING, Some(e.handle), None));
      if !IsCurrent(hash, e1.latestHash) {
        assert AttemptSpec(c, e, e.inFlight.value, env) == WriteSpec(e1, json, hash, env);
        SameDayWriteSpec(e1, json, hash, env);
      }
    }
  }

  lemma SameDayWriteSpec(e: Dir, json: string, hash: string, env: Env)
    requires e.meta.lastDailyDate == Some(env.today)
    ensures var r := WriteSpec(e, json, hash, env);
      forall n :: n in DailyNames(r.files) ==> n in e.files && r.files[n] == e.files[n]
  {
    var w := WriteFile(e.files, LATEST_FILE, json, env.writeFails);
    if w.Some? {
      LatestIsNotDaily();
      SaveKeeps(e.(files := w.value), hash, env);
      PruneTouchesOnlyDaily(w.value, env.removeFails);
    }
  }

  /**
   * Backing up again with the same state and the same timestamp, after a backup that was
   * saved, finds it current. (With a fresh timestamp the text differs: see
   * `PayloadTextFixesTimestamp`.)
   */
  lemma SameInputsAreCurrent(c: Config, e: Dir, env: Env, env2: Env)
    requires e.inFlight.Some? && e.handle.Some?
    requires EnsurePermission(true, env.perm, e.inFlight.value != "auto")
    requires BuildPayload(c, env.read, env.stamp).Some?
    requires var json := Serialize(BuildPayload(c, env.read, env.stamp).value);
      !IsCurrent(Digest(c.subtle, json, Signed), e.latestHash) && Digest(c.subtle, json, Signed) != ""
    requires LATEST_FILE !in env.writeFails && DailyName(env.today) !in env.writeFails
    requires LATEST_FILE !in e.files || e.files[LATEST_FILE].File?
    requires DailyName(env.today) !in e.files || e.files[DailyName(env.today)].File?
    requires env2.read == env.read && env2.stamp == env.stamp
    ensures var r := CompleteSpec(c, e, env);
      var again := PerformBackupSpec(c, r, "manual");
      again.inFlight.Some? ==>
        EnsurePermission(true, env2.perm, true) ==>
          CompleteSpec(c, again, env2).status.code == "up-to-date" &&
          CompleteSpec(c, again, env2).files == r.files
  {
    WriteSucceeds(c, e, env);
    var r := CompleteSpec(c, e, env);
    var again := PerformBackupSpec(c, r, "manual");
    if again.inFlight.Some? && EnsurePermission(true, env2.perm, true) {
      assert again.latestHash == r.latestHash;
      CurrentWritesNothing(c, again, env2);
    }
  }

  /** `handleStoreSave` without a folder or support does nothing, and otherwise arms one fresh timer. */
  lemma HandleStoreSaveEffects(c: Config, e: Dir, reason: string)
    ensures e.handle.None? || !c.supported ==> HandleStoreSaveSpec(c, e, reason) == e
    ensures e.handle.Some? && c.supported ==> HandleStoreSaveSpec(c, e, reason) == e.(pending := Some(Timer(reason, false)))
  {
  }

  /**
   * `clearBackupData` forgets the folder, the metadata and the hash, but leaves the pending
   * timer armed: when it fires, the backup it starts reports `no-handle`.
   */
  lemma ClearThenTimerReportsNoHandle(c: Config, e: Dir, dbOk: bool)
    requires e.pending.Some? && !e.pending.value.fired
    ensures var cleared := ClearBackupDataSpec(e, dbOk);
      cleared.handle.None? && cleared.meta == EMPTY_META && cleared.latestHash == "" &&
      cleared.status.code == "disconnected" && cleared.status.handleName.None? &&
      cleared.pending == e.pending &&
      FireTimerSpec(c, cleared).status.code == "no-handle" &&
      FireTimerSpec(c, cleared).files == e.files
  {
  }

  /** Choosing a folder connects it, stores it and starts the `initial-setup` backup. */
  lemma ChooseDirectoryConnects(c: Config, e: Dir, name: string, contents: map<string, DirEntry>)
    requires c.supported && c.hasGetter && !e.busy
    ensures var r := ChooseDirectorySpec(c, e, Picked(name, contents), true);
      r.handle == Some(name) && r.storedHandle == Some(name) && r.files == contents &&
      r.status.code == "ready" && r.status.handleName == Some(name) &&
      r.busy && r.inFlight == Some("initial-setup")
  {
  }

  /** A cancelled or failed pick keeps the folder that was connected. */
  lemma ChooseDirectoryFailureKeepsFolder(c: Config, e: Dir, pick: Pick, dbOk: bool)
    requires !pick.Picked? || !dbOk
    ensures var r := ChooseDirectorySpec(c, e, pick, dbOk);
      r.handle == e.handle && r.storedHandle == e.storedHandle && r.files == e.files && r.busy == e.busy
  {
  }

  // ---------------------------------------------------------------------------------------
  // The singleton

  class Backup {
    const supported: bool
    const subtle: Option<string -> seq<bv8>>
    const appVersion: string
    const hasGetter: bool

    var handle: Option<string>
    var files: map<string, DirEntry>
    var storedHandle: Option<string>
    var metaRecord: Option<Meta>
    var localMeta: MetaItem
    var meta: Meta
    var latestHash: string
    var busy: bool
    var inFlight: Option<string>
    var pending: Option<Timer>
    var status: Status
    var subscribers: map<nat, seq<Status>>

    function Cfg(): Config {
      Config(supported, subtle, appVersion, hasGetter)
    }

    function Model(): Dir
      reads this
    {
      Dir(handle, files, storedHandle, metaRecord, localMeta, meta, latestHash, busy, inFlight,
          pending, status, subscribers)
    }

    predicate Valid()
      reads this
    {
      DirValid(Cfg(), Model())
    }

    /** `init(options)`, with the stored records and the stored folder's entries as they are found. */
    constructor (c: Config, localMeta0: MetaItem, storedHandle0: Option<string>, metaRecord0: Option<Meta>,
                 files0: map<string, DirEntry>, listener: Option<nat>, dbOk: bool, perm: Permission)
      ensures Cfg() == c
      ensures Model() == InitSpec(c, localMeta0, storedHandle0, metaRecord0, files0, listener, dbOk, perm)
      ensures Valid()
    {
      supported, subtle, appVersion, hasGetter := c.supported, c.subtle, c.appVersion, c.hasGetter;
      handle, files, storedHandle, metaRecord, localMeta := None, files0, storedHandle0, metaRecord0, localMeta0;
      meta, latestHash, busy, inFlight, pending := EMPTY_META, "", false, None, None;
      status, subscribers := Status("idle", MSG_IDLE, None, None), map[];
      new;
      LoadLocal(listener);
      if !supported {
        UpdateStatus(Report("unsupported", MSG_UNSUPPORTED, None, None));
      } else {
        UpdateStatus(Report("initializing", MSG_INITIALIZING, None, None));
        RestoreHandle(dbOk, perm);
      }
      InitValid(c, localMeta0, storedHandle0, metaRecord0, files0, listener, dbOk, perm);
    }

    method LoadLocal(listener: Option<nat>)
      modifies this
      ensures Model() == LoadLocalSpec(old(Model()), listener)
    {
      if listener.Some? {
        OnStatusChange(listener.value);
      }
      meta := LoadMeta(localMeta);
      latestHash := if meta.latestHash.Some? then meta.latestHash.value else "";
    }

    method RestoreHandle(dbOk: bool, perm: Permission)
      modifies this
      ensures Model() == RestoreHandleSpec(old(Model()), dbOk, perm)
    {
      if !dbOk {
        UpdateStatus(Report("error", MSG_RESTORE_FAILED, None, None));
        return;
      }
      if storedHandle.None? {
        UpdateStatus(Report("no-handle", MSG_NOT_CONNECTED, None, None));
        return;
      }
      var name := storedHandle.value;
      var hasPermission := EnsurePermission(true, perm, false);
      handle := Some(name);
      if !hasPermission {
        UpdateStatus(Report("needs-permission", Reauthorize(name), Some(Some(name)), None));
        return;
      }
      UpdateStatus(Report("ready", ConnectedTo(name) + ".", Some(Some(name)), meta.lastBackupAt));
    }

    function GetStatus(): Status
      reads this
    {
      status
    }

    method UpdateStatus(u: StatusUpdate)
      modifies this
      ensures Model() == WithStatus(old(Model()), u)
    {
      var name := handle;
      var at := u.lastBackupAt;
      if !TruthyTime(at) && TruthyTime(meta.lastBackupAt) {
        at := meta.lastBackupAt;
      }
      status := Status(u.code, u.message, if u.handleName.Some? then u.handleName.value else name, at);
      subscribers := Broadcast(subscribers, status);
    }

    method OnStatusChange(id: nat)
      modifies this
      ensures Model() == Subscribe(old(Model()), id)
    {
      var seen := if id in subscribers then subscribers[id] else [];
      subscribers := subscribers[id := seen + [status]];
    }

    method RemoveStatusListener(id: nat)
      modifies this
      ensures Model() == Unsubscribe(old(Model()), id)
    {
      subscribers := subscribers - {id};
    }

    method ChooseDirectory(pick: Pick, dbOk: bool)
      modifies this
      ensures Model() == ChooseDirectorySpec(Cfg(), old(Model()), pick, dbOk)
    {
      ghost var e := Model();
      if !supported {
        UpdateStatus(Report("unsupported", MSG_UNSUPPORTED, None, None));
        return;
      }
      match pick {
        case Aborted =>
          UpdateStatus(Report("cancelled", MSG_CANCELLED, None, None));
        case PickFailed =>
          UpdateStatus(Report("error", MSG_SELECT_FAILED, None, None));
        case Picked(name, contents) =>
          if !dbOk {
            UpdateStatus(Report("error", MSG_SELECT_FAILED, None, None));
            return;
          }
          storedHandle := Some(name);
          handle := Some(name);
          files := contents;
          assert Model() == e.(storedHandle := Some(name), handle := Some(name), files := contents);
          UpdateStatus(Report("ready", ConnectedTo(name), Some(Some(name)), None));
          PerformBackup("initial-setup");
      }
    }

    method ClearBackupData(dbOk: bool)
      modifies this
      ensures Model() == ClearBackupDataSpec(old(Model()), dbOk)
    {
      ghost var e := Model();
      if dbOk {
        storedHandle := None;
        metaRecord := None;
      }
      handle := None;
      meta := EMPTY_META;
      latestHash := "";
      localMeta := Absent;
      assert Model() == Cleared(e, dbOk);
      UpdateStatus(Report("disconnected", MSG_DISCONNECTED, Some(None), None));
    }

    method TriggerManualBackup(reason: string)
      modifies this
      ensures Model() == TriggerManualBackupSpec(Cfg(), old(Model()), reason)
    {
      if handle.None? {
        UpdateStatus(Report("no-handle", MSG_CONNECT_FIRST, None, None));
        return;
      }
      PerformBackup(reason);
    }

    method HandleStoreSave(reason: string)
      modifies this
      ensures Model() == HandleStoreSaveSpec(Cfg(), old(Model()), reason)
    {
      if handle.None? || !supported {
        return;
      }
      pending := Some(Timer(reason, false));
    }

    method FireTimer()
      modifies this
      ensures Model() == FireTimerSpec(Cfg(), old(Model()))
    {
      if pending.None? || pending.value.fired {
        return;
      }
      var reason := pending.value.reason;
      pending := Some(pending.value.(fired := true));
      PerformBackup(reason);
    }

    method PerformBackup(reason: string)
      modifies this
      ensures Model() == PerformBackupSpec(Cfg(), old(Model()), reason)
    {
      if handle.None? {
        UpdateStatus(Report("no-handle", MSG_CONNECT_FOR_AUTO, None, None));
        return;
      }
      if !hasGetter {
        return;
      }
      if busy {
        return;
      }
      busy := true;
      inFlight := Some(reason);
    }

    method CompleteBackup(env: Env)
      requires inFlight.Some?
      modifies this
      ensures Model() == CompleteSpec(Cfg(), old(Model()), env)
    {
      Attempt(inFlight.value, env);
      busy := false;
      inFlight := None;
    }

    method Attempt(reason: string, env: Env)
      modifies this
      ensures Model() == AttemptSpec(Cfg(), old(Model()), reason, env)
    {
      var hasPermission := EnsurePermission(true, env.perm, reason != "auto");
      if !hasPermission {
        UpdateStatus(Report("needs-permission", MSG_NEEDS_PERMISSION, Some(handle), None));
        return;
      }
      UpdateStatus(Report("busy", MSG_WRITING, Some(handle), None));
      var payload := BuildPayload(Cfg(), env.read, env.stamp);
      if payload.None? {
        UpdateStatus(Report("error", MSG_FAILED, Some(handle), None));
        return;
      }
      var json := Serialize(payload.value);
      var hash := ComputeDigest(subtle, json, Signed);
      if hash != "" && latestHash != "" && hash == latestHash {
        UpdateStatus(Report("up-to-date", MSG_CURRENT, Some(handle), Some(LastOrNow(meta, env.now))));
        return;
      }
      WriteBackup(json, hash, env);
    }

    method WriteBackup(json: string, hash: string, env: Env)
      modifies this
      ensures Model() == WriteSpec(old(Model()), json, hash, env)
    {
      if handle.None? {
        UpdateStatus(Report("error", MSG_FAILED, Some(handle), None));
        return;
      }
      var latest := WriteFile(files, LATEST_FILE, json, env.writeFails);
      if latest.None? {
        UpdateStatus(Report("error", MSG_FAILED, Some(handle), None));
        return;
      }
      files := latest.value;
      if meta.lastDailyDate != Some(env.today) {
        var daily := WriteFile(files, DailyName(env.today), json, env.writeFails);
        if daily.None? {
          UpdateStatus(Report("error", MSG_FAILED, Some(handle), None));
          return;
        }
        files := daily.value;
        meta := meta.(lastDailyDate := Some(env.today));
      }
      SaveBackup(hash, env);
    }

    method SaveBackup(hash: string, env: Env)
      modifies this
      ensures Model() == SaveSpec(old(Model()), hash, env)
    {
      PruneDailyBackups(env.removeFails);
      meta := meta.(lastBackupAt := Some(env.now), latestHash := Some(hash));
      latestHash := hash;
      SaveMeta(env.dbOk);
      UpdateStatus(Report("success", MSG_SAVED, Some(handle), Some(env.now)));
    }

    method SaveMeta(dbOk: bool)
      modifies this
      ensures Model() == SaveMetaSpec(old(Model()), dbOk)
    {
      if dbOk {
        metaRecord := Some(Persisted(meta));
      }
      localMeta := Parsed(meta);
    }

    method HydrateMetaFromDb(dbOk: bool)
      modifies this
      ensures Model() == HydrateSpec(old(Model()), dbOk)
    {
      if dbOk && metaRecord.Some? {
        meta := metaRecord.value;
        latestHash := HashOf(meta);
        localMeta := Parsed(meta);
      }
    }

    /**
     * `_pruneDailyBackups()`: collect the daily file names, sort them, and remove names from
     * the front while more than fourteen are left, stopping at the first removal that fails.
     */
    method PruneDailyBackups(removeFails: set<string>)
      modifies this
      ensures Model() == old(Model()).(files := PruneSpec(old(files), removeFails))
    {
      files := PruneFiles(files, removeFails);
    }
  }

  /** The body of `_pruneDailyBackups` on the folder's entries. */
  method PruneFiles(files: map<string, DirEntry>, removeFails: set<string>) returns (f: map<string, DirEntry>)
    ensures f == PruneSpec(files, removeFails)
  {
    var entries := CollectDailyNames(files);
    var collected := entries;
    entries := SortNames(entries);
    assert forall y :: y in entries <==> y in multiset(collected);
    SortedUnique(entries, SortSet(DailyNames(files)));
    f := files;
    while |entries| > MAX_DAILY_FILES
      invariant PruneLoop(f, entries, removeFails) == PruneSpec(files, removeFails)
      decreases |entries|
    {
      var oldest := entries[0];
      entries := entries[1..];
      if oldest in removeFails {
        break;
      }
      f := f - {oldest};
    }
  }

  /** The names of the daily files of a folder, each once, in the order the folder lists them. */
  method CollectDailyNames(files: map<string, DirEntry>) returns (entries: seq<string>)
    ensures forall n :: n in entries <==> n in DailyNames(files)
    ensures forall i, j :: 0 <= i < j < |entries| ==> entries[i] != entries[j]
  {
    entries := [];
    var rest := files.Keys;
    while rest != {}
      invariant rest <= files.Keys
      invariant forall n :: n in entries <==> n in DailyNames(files) && n !in rest
      invariant forall i, j :: 0 <= i < j < |entries| ==> entries[i] != entries[j]
      decreases rest
    {
      var n :| n in rest;
      if files[n].File? && StartsWith(n, DAILY_PREFIX) {
        entries := entries + [n];
      }
      rest := rest - {n};
    }
  }
}
