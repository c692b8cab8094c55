/**
 * The embedded-store backup engine (`src/auto-backup.js`, the `AutoBackup` singleton).
 *
 * The object store is three generational slots plus a metadata record. Every operation is
 * a specification function from one engine state to the next, and the class `AutoBackup`
 * implements each of them step by step on its fields. `performBackup` suspends while its
 * transaction runs; it is split into `PerformBackup`, which ends with `_busy` set and the
 * entry in flight, and `FinishBackup`, which commits (or fails) the transaction and clears
 * `_busy`. The transaction itself is one atomic step.
 */
module AutoBackupEngine {
  import opened Wrappers
  import opened Listeners
  import opened Strings
  import opened Json
  import opened Hashing
  import opened Snapshot

  const MAX_HISTORY_SNAPSHOTS: nat := 200
  const MAX_ROUND_SNAPSHOTS: nat := 200
  const CURRENT_KEY := "current"
  const PREVIOUS_KEY := "previous"
  const OLDEST_KEY := "oldest"

  const MSG_READY := "Automatic backups ready."
  const MSG_WILL_START := "Automatic backups will start after your next change."
  const MSG_DISABLED := "Automatic backups are disabled by the user."
  const MSG_UNSUPPORTED := "Automatic backups require IndexedDB support."
  const MSG_INIT_FAILED := "Automatic backup initialization failed."
  const MSG_NO_CHANGE := "Backup skipped \U{2014} no changes detected."
  const MSG_BUSY := "Saving automatic backup\U{2026}"
  const MSG_SUCCESS := "Backup saved successfully."
  const MSG_FAILED := "Automatic backup failed."
  const MSG_DOWNLOADED := "Backup downloaded."
  const ERR_UNSUPPORTED := "Automatic backups are not supported in this browser."
  const ERR_UNKNOWN_SLOT := "Unknown backup slot."
  const ERR_EMPTY_SLOT := "Selected backup slot is empty."
  const ERR_NO_STATE := "Unable to collect app state for backup."

  /** A record of a backup slot. */
  datatype Entry = Entry(savedAt: string, hash: string, version: string, reason: string, data: Json)

  /** The three slots of the object store; `None` is a missing key. */
  datatype Slots = Slots(current: Option<Entry>, previous: Option<Entry>, oldest: Option<Entry>)

  /** The record under the `metadata` key of the object store. */
  datatype MetaRecord = MetaRecord(lastBackupISO: string, lastHash: string)

  datatype Metadata = Metadata(
    lastBackupISO: string,
    currentBackupDate: string,
    previousBackupDate: string,
    oldestBackupDate: string,
    backupCount: nat)

  const EMPTY_METADATA := Metadata("", "", "", "", 0)

  /** The metadata cached in `localStorage`: the metadata with `lastHash` added. */
  datatype CachedMeta = CachedMeta(metadata: Metadata, lastHash: string)

  /** One element of `listBackups()`. */
  datatype Listing = Listing(key: string, savedAt: string, version: string)

  /** The argument of `_updateStatus`: a code, a message and possibly an `enabled` flag. */
  datatype StatusUpdate = Report(code: string, message: string, enabled: Option<bool>)

  /** `_status`. */
  datatype Status = Status(code: string, message: string, enabled: bool, metadata: Metadata)

  /** What `getStatus()` returns, and so what every status callback receives. */
  datatype StatusView = StatusView(code: string, message: string, enabled: bool, pending: bool, metadata: Metadata)

  /** `_buildEntry`'s result. */
  datatype Draft = Draft(savedAt: string, version: string, reason: string, data: Json)

  /** The file `manualBackup` offers for download. */
  datatype Download = Download(fileName: string, payload: Json)

  /** What a call throws: one of the engine's own errors, or the error `applyState` threw. */
  datatype Failure = Thrown(message: string) | ApplyStateThrew

  /** The parts of the environment fixed for the lifetime of the engine. */
  datatype Config = Config(
    supported: bool,                         // `window` and `indexedDB` exist
    subtle: Option<string -> seq<bv8>>,      // SHA-256, when `crypto.subtle` works
    appVersion: string,                      // `window.PUNCHBUGGY_APP_VERSION`, "" when unset
    hasGetter: bool,                         // `init` received a `getState` function
    hasApply: bool)                          // `init` received an `applyState` function

  /** Everything the engine's operations read or change. */
  datatype Engine = Engine(
    enabled: bool,
    busy: bool,
    inFlight: Option<Entry>,                 // the entry of the transaction that `_busy` waits for
    pending: Option<string>,                 // the reason of the pending debounce timer
    lastHash: string,
    status: Status,
    metadata: Metadata,
    slots: Slots,
    metaRecord: Option<MetaRecord>,
    storedFlag: Option<string>,              // `localStorage['punchbuggy-auto-backup-enabled']`
    cache: Option<CachedMeta>,               // `localStorage['punchbuggy-auto-backup-meta']`
    subscribers: map<nat, seq<StatusView>>,  // each callback and the statuses it received
    applied: seq<Json>)                      // the states handed to `applyState`, in order

  // ---------------------------------------------------------------------------------------
  // Slots

  function CountSlots(s: Slots): (n: nat)
    ensures n <= 3
  {
    (if s.current.Some? then 1 else 0) + (if s.previous.Some? then 1 else 0) + (if s.oldest.Some? then 1 else 0)
  }

  /** The slots as they fill from empty: a slot is used only when the ones before it are. */
  predicate Packed(s: Slots) {
    (s.previous.Some? ==> s.current.Some?) && (s.oldest.Some? ==> s.previous.Some?)
  }

  predicate Holds(s: Slots, e: Entry) {
    s.current == Some(e) || s.previous == Some(e) || s.oldest == Some(e)
  }

  /** The writes of the rotation transaction, with `entry` as the new `current`. */
  function Rotate(s: Slots, entry: Entry): Slots {
    var oldest := if s.previous.Some? then s.previous else if s.oldest.None? then None else s.oldest;
    var previous := if s.current.Some? then s.current else None;
    Slots(Some(entry), previous, oldest)
  }

  /**
   * The rotation shifts each generation down by one: the new entry becomes `current`, the old
   * `current` (or nothing) becomes `previous`, and the old `previous` becomes `oldest` when
   * there was one; otherwise `oldest` keeps what it held. Nothing else enters the store.
   */
  lemma RotateShift(s: Slots, entry: Entry)
    ensures Rotate(s, entry).current == Some(entry)
    ensures Rotate(s, entry).previous == s.current
    ensures s.previous.Some? ==> Rotate(s, entry).oldest == s.previous
    ensures s.previous.None? ==> Rotate(s, entry).oldest == s.oldest
    ensures forall e :: Holds(Rotate(s, entry), e) ==> e == entry || Holds(s, e)
  {
  }

  /** From slots that filled in order, a rotation adds one generation, up to three. */
  lemma RotatePacked(s: Slots, entry: Entry)
    requires Packed(s)
    ensures Packed(Rotate(s, entry))
    ensures CountSlots(Rotate(s, entry)) == if CountSlots(s) == 3 then 3 else CountSlots(s) + 1
  {
  }

  const NO_SLOTS := Slots(None, None, None)

  /** Three backups from empty fill the slots newest first; a fourth pushes the first one out. */
  lemma RotateGenerations(b1: Entry, b2: Entry, b3: Entry, b4: Entry)
    requires b1 != b2 && b1 != b3 && b1 != b4
    ensures Rotate(Rotate(Rotate(NO_SLOTS, b1), b2), b3) == Slots(Some(b3), Some(b2), Some(b1))
    ensures Rotate(Rotate(Rotate(Rotate(NO_SLOTS, b1), b2), b3), b4) == Slots(Some(b4), Some(b3), Some(b2))
    ensures !Holds(Rotate(Rotate(Rotate(Rotate(NO_SLOTS, b1), b2), b3), b4), b1)
  {
  }

  /** The slot a key names: `None` when the key is not one of the three slot keys. */
  function SlotOf(s: Slots, key: string): (r: Option<Option<Entry>>)
    ensures r.Some? <==> key == CURRENT_KEY || key == PREVIOUS_KEY || key == OLDEST_KEY
  {
    if key == CURRENT_KEY then Some(s.current)
    else if key == PREVIOUS_KEY then Some(s.previous)
    else if key == OLDEST_KEY then Some(s.oldest)
    else None
  }

  function ListingOf(key: string, slot: Option<Entry>): seq<Listing> {
    match slot
    case None => []
    case Some(e) => [Listing(key, e.savedAt, if e.version != "" then e.version else "unknown")]
  }

  function KeyRank(key: string): nat {
    if key == CURRENT_KEY then 0 else if key == PREVIOUS_KEY then 1 else 2
  }

  /** `listBackups()`: the filled slots in the order current, previous, oldest. */
  function ListBackups(supported: bool, s: Slots): (r: seq<Listing>)
    ensures |r| == if supported then CountSlots(s) else 0
    ensures forall k :: 0 <= k < |r| ==>
      SlotOf(s, r[k].key).Some? && SlotOf(s, r[k].key).value.Some? &&
      r[k].savedAt == SlotOf(s, r[k].key).value.value.savedAt &&
      r[k].version == (var v := SlotOf(s, r[k].key).value.value.version; if v != "" then v else "unknown")
    ensures forall i, j :: 0 <= i < j < |r| ==> KeyRank(r[i].key) < KeyRank(r[j].key)
  {
    if !supported then []
    else ListingOf(CURRENT_KEY, s.current) + ListingOf(PREVIOUS_KEY, s.previous) + ListingOf(OLDEST_KEY, s.oldest)
  }

  function SavedAtOf(slot: Option<Entry>): string {
    if slot.Some? then slot.value.savedAt else ""
  }

  /** `_loadMetadataFromDb`: the metadata the store shows, and the last hash it keeps. */
  function LoadMetadata(s: Slots, meta: Option<MetaRecord>, lastHash: string): (r: (Metadata, string))
    ensures r.0.backupCount == |ListBackups(true, s)|
    ensures r.0.currentBackupDate == SavedAtOf(s.current)
    ensures r.0.previousBackupDate == SavedAtOf(s.previous)
    ensures r.0.oldestBackupDate == SavedAtOf(s.oldest)
    ensures meta.Some? && meta.value.lastHash != "" ==> r.1 == meta.value.lastHash
    ensures !(meta.Some? && meta.value.lastHash != "") ==> r.1 == lastHash
  {
    var iso := if meta.Some? then meta.value.lastBackupISO else "";
    var hash := if meta.Some? && meta.value.lastHash != "" then meta.value.lastHash else lastHash;
    (Metadata(iso, SavedAtOf(s.current), SavedAtOf(s.previous), SavedAtOf(s.oldest), CountSlots(s)), hash)
  }

  // ---------------------------------------------------------------------------------------
  // Entries and hashes

  /** `_buildEntry(reason)` at time `savedAt`: `None` for no getter, a throwing one or a non-object. */
  function BuildEntry(c: Config, read: StateRead, savedAt: string, reason: string): (r: Option<Draft>)
    ensures r.Some? <==> c.hasGetter && read.Got? && IsObjectType(read.value)
    ensures r.Some? ==>
      r.value.savedAt == savedAt && r.value.reason == reason &&
      r.value.version == (if c.appVersion != "" then c.appVersion else "dev") &&
      r.value.data == Snapshot.CloneState(read.value, MAX_HISTORY_SNAPSHOTS, MAX_ROUND_SNAPSHOTS)
  {
    if !c.hasGetter then None
    else match read
      case Threw => None
      case Got(source) =>
        if !IsObjectType(source) then None
        else Some(Draft(savedAt, if c.appVersion != "" then c.appVersion else "dev", reason,
                        Snapshot.CloneState(source, MAX_HISTORY_SNAPSHOTS, MAX_ROUND_SNAPSHOTS)))
  }

  /** The hash that `performBackup` compares: of the serialized data alone. */
  function DataHash(c: Config, data: Json): string {
    Digest(c.subtle, Serialize(data), Absolute)
  }

  /** `hash && this._lastHash && hash === this._lastHash`. */
  predicate IsDuplicate(hash: string, lastHash: string) {
    hash != "" && lastHash != "" && hash == lastHash
  }

  /** The time and the reason of a backup do not take part in the duplicate test. */
  lemma DuplicateIgnoresTimeAndReason(c: Config, read: StateRead, t1: string, r1: string, t2: string, r2: string)
    requires BuildEntry(c, read, t1, r1).Some?
    ensures BuildEntry(c, read, t2, r2).Some?
    ensures DataHash(c, BuildEntry(c, read, t1, r1).value.data) == DataHash(c, BuildEntry(c, read, t2, r2).value.data)
  {
  }

  function ReplaceColons(s: string): (r: string)
    ensures |r| == |s|
    ensures forall k :: 0 <= k < |r| ==> r[k] == (if s[k] == ':' then '-' else s[k])
  {
    if |s| == 0 then "" else [if s[0] == ':' then '-' else s[0]] + ReplaceColons(s[1..])
  }

  // ---------------------------------------------------------------------------------------
  // Status

  function ReadyMessage(m: Metadata): string {
    if m.currentBackupDate != "" then MSG_READY else MSG_WILL_START
  }

  /** `getStatus()`. */
  function ViewOf(c: Config, e: Engine): StatusView {
    StatusView(e.status.code, e.status.message, e.enabled && c.supported, e.pending.Some?, e.metadata)
  }

  /** `_updateStatus(u)`: the new status, then every callback is told `getStatus()`. */
  function WithStatus(c: Config, e: Engine, u: StatusUpdate): (r: Engine)
    ensures r == e.(status := r.status, subscribers := r.subscribers)
    ensures r.status == Status(u.code, u.message, e.enabled && c.supported && u.enabled != Some(false), e.metadata)
    ensures r.subscribers == Broadcast(e.subscribers, ViewOf(c, r))
  {
    var e1 := e.(status := Status(u.code, u.message, e.enabled && c.supported && u.enabled != Some(false), e.metadata));
    e1.(subscribers := Broadcast(e.subscribers, ViewOf(c, e1)))
  }

  /** Every callback is told the code of the last status update. */
  lemma WithStatusTellsEveryone(c: Config, e: Engine, u: StatusUpdate, id: nat)
    requires id in e.subscribers
    ensures id in WithStatus(c, e, u).subscribers
    ensures |WithStatus(c, e, u).subscribers[id]| == |e.subscribers[id]| + 1
    ensures WithStatus(c, e, u).subscribers[id][|e.subscribers[id]|].code == u.code
    ensures WithStatus(c, e, u).subscribers[id][|e.subscribers[id]|].enabled == (e.enabled && c.supported)
  {
  }

  /** `onStatusChange(cb)`: the callback joins the set and is told the status at once. */
  function Subscribe(c: Config, e: Engine, id: nat): (r: Engine)
    ensures r.subscribers.Keys == e.subscribers.Keys + {id}
    ensures r.subscribers[id] == (if id in e.subscribers then e.subscribers[id] else []) + [ViewOf(c, e)]
  {
    e.(subscribers := e.subscribers[id := (if id in e.subscribers then e.subscribers[id] else []) + [ViewOf(c, e)]])
  }

  /** The function `onStatusChange` returns: the callback leaves the set. */
  function Unsubscribe(e: Engine, id: nat): (r: Engine)
    ensures r.subscribers.Keys == e.subscribers.Keys - {id}
  {
    e.(subscribers := e.subscribers - {id})
  }

  /** `_loadMetadataFromDb`, applied to the engine: metadata, last hash and the cached copy. */
  function LoadMetaInto(e: Engine): (r: Engine)
    ensures r.metadata.backupCount == CountSlots(e.slots)
    ensures r.cache == Some(CachedMeta(r.metadata, r.lastHash))
  {
    var (m, h) := LoadMetadata(e.slots, e.metaRecord, e.lastHash);
    e.(metadata := m, lastHash := h, cache := Some(CachedMeta(m, h)))
  }

  // ---------------------------------------------------------------------------------------
  // Operations

  /** `_loadEnabledFlag`: enabled unless the stored flag says otherwise. */
  function LoadEnabledFlag(stored: Option<string>): (r: bool)
    ensures r <==> stored == None || stored == Some("true")
  {
    match stored
    case None => true
    case Some(text) => text == "true"
  }

  function InitialStatus(c: Config): Status {
    if c.supported then Status("idle", MSG_READY, true, EMPTY_METADATA)
    else Status("unsupported", MSG_UNSUPPORTED, false, EMPTY_METADATA)
  }

  /** The state before `init`. */
  function Fresh(c: Config, storedFlag: Option<string>, cache: Option<CachedMeta>, slots: Slots,
                 metaRecord: Option<MetaRecord>): Engine {
    Engine(true, false, None, None, "", InitialStatus(c), EMPTY_METADATA, slots, metaRecord,
           storedFlag, cache, map[], [])
  }

  /** The part of `init` before the store is opened: the enabled flag and the cached metadata. */
  function ReadLocalSpec(e: Engine): Engine {
    var e1 := e.(enabled := LoadEnabledFlag(e.storedFlag));
    match e1.cache
    case None => e1
    case Some(m) => e1.(metadata := m.metadata, lastHash := if m.lastHash != "" then m.lastHash else e1.lastHash)
  }

  /** The rest of `init`: open the store (`dbOk` says whether that worked) and load its metadata. */
  function OpenStoreSpec(c: Config, e: Engine, dbOk: bool): Engine {
    if !c.supported then WithStatus(c, e, Report("unsupported", MSG_UNSUPPORTED, Some(false)))
    else if !dbOk then WithStatus(c, e, Report("error", MSG_INIT_FAILED, Some(false)))
    else
      var e1 := LoadMetaInto(e);
      if e1.enabled then WithStatus(c, e1, Report("idle", ReadyMessage(e1.metadata), None))
      else WithStatus(c, e1, Report("disabled", MSG_DISABLED, Some(false)))
  }

  /**
   * `init`: subscribe `options.onStatusChange` when one is given (`listener`), read the enabled
   * flag and the cached metadata, open the store (`dbOk` says whether that worked) and load the
   * metadata it holds, from the store as it is found.
   */
  function InitSpec(c: Config, listener: Option<nat>, storedFlag: Option<string>, cache: Option<CachedMeta>,
                    slots: Slots, metaRecord: Option<MetaRecord>, dbOk: bool): Engine {
    var e := Fresh(c, storedFlag, cache, slots, metaRecord);
    var e1 := if listener.Some? then Subscribe(c, e, listener.value) else e;
    OpenStoreSpec(c, ReadLocalSpec(e1), dbOk)
  }

  /** `handleStoreSave(reason)`: (re)arm the debounce timer. */
  function HandleStoreSaveSpec(c: Config, e: Engine, reason: string): Engine {
    if !c.supported || !e.enabled then e else e.(pending := Some(reason))
  }

  /** `setEnabled(value)`. */
  function SetEnabledSpec(c: Config, e: Engine, value: bool): Engine {
    if value == e.enabled then
      var v := ViewOf(c, e);
      WithStatus(c, e, Report(v.code, v.message, Some(v.enabled)))
    else
      var e1 := e.(enabled := value, storedFlag := Some(if value then "true" else "false"));
      var e2 := if !value && e1.pending.Some? then e1.(pending := None) else e1;
      if !value then WithStatus(c, e2, Report("disabled", MSG_DISABLED, Some(false)))
      else HandleStoreSaveSpec(c, WithStatus(c, e2, Report("idle", ReadyMessage(e2.metadata), Some(true))), "enabled-toggle")
  }

  /**
   * `performBackup(reason)` up to the suspension on its transaction: the checks, the entry,
   * the hash and the duplicate test; then `_busy` is set and the entry is in flight.
   */
  function PerformBackupSpec(c: Config, e: Engine, reason: string, read: StateRead, savedAt: string): Engine {
    if !c.supported then e
    else if !e.enabled then WithStatus(c, e, Report("disabled", MSG_DISABLED, Some(false)))
    else if e.busy then e
    else match BuildEntry(c, read, savedAt, reason)
      case None => e
      case Some(d) =>
        var hash := DataHash(c, d.data);
        if IsDuplicate(hash, e.lastHash) then WithStatus(c, e, Report("no-change", MSG_NO_CHANGE, None))
        else
          var e1 := WithStatus(c, e.(busy := true), Report("busy", MSG_BUSY, None));
          e1.(inFlight := Some(Entry(d.savedAt, hash, d.version, reason, d.data)))
  }

  /**
   * The rest of `performBackup`: the transaction commits (`txOk`) or fails as a whole, and
   * `_busy` is cleared either way.
   */
  function FinishBackupSpec(c: Config, e: Engine, txOk: bool): Engine
    requires e.inFlight.Some?
  {
    var e1 := if txOk then CommitSpec(c, e, e.inFlight.value)
              else WithStatus(c, e, Report("error", MSG_FAILED, None));
    e1.(busy := false, inFlight := None)
  }

  /** A committed transaction: the rotation, the metadata record, then the reload of the metadata. */
  function CommitSpec(c: Config, e: Engine, entry: Entry): Engine {
    WithStatus(c, LoadMetaInto(Stored(e, entry)), Report("success", MSG_SUCCESS, None))
  }

  /** The store after the transaction of `_commitBackup`: the rotated slots and the new meta record. */
  function Stored(e: Engine, entry: Entry): Engine {
    e.(slots := Rotate(e.slots, entry), metaRecord := Some(MetaRecord(entry.savedAt, entry.hash)), lastHash := entry.hash)
  }

  /** The debounce timer fires: it forgets itself and starts a backup. */
  function FireTimerSpec(c: Config, e: Engine, read: StateRead, savedAt: string): Engine {
    match e.pending
    case None => e
    case Some(reason) => PerformBackupSpec(c, e.(pending := None), reason, read, savedAt)
  }

  /** `restoreFromBackup(key)`; `applyOk` says whether `applyState` returned normally. */
  function RestoreSpec(c: Config, e: Engine, key: string, applyOk: bool): (Engine, Result<Json, Failure>) {
    if !c.supported then (e, Err(Thrown(ERR_UNSUPPORTED)))
    else match SlotOf(e.slots, key)
      case None => (e, Err(Thrown(ERR_UNKNOWN_SLOT)))
      case Some(slot) =>
        if slot.None? || !Truthy(slot.value.data) then (e, Err(Thrown(ERR_EMPTY_SLOT)))
        else
          var record := slot.value;
          if c.hasApply && !applyOk then (e, Err(ApplyStateThrew))
          else
            var e1 := if c.hasApply then e.(applied := e.applied + [record.data]) else e;
            var when := if record.savedAt != "" then record.savedAt else "unknown time";
            (WithStatus(c, e1, Report("restored", "Restored " + key + " backup from " + when + ".", None)),
             Ok(record.data))
  }

  /** `punchbuggy-backup-${savedAt.replace(/[:]/g, '-')}.json`: a file name without colons. */
  function BackupFileName(savedAt: string): (name: string)
    ensures StartsWith(name, "punchbuggy-backup-")
    ensures forall k :: 0 <= k < |name| ==> name[k] != ':'
    ensures |name| == |savedAt| + 23
  {
    var prefix, middle, suffix := "punchbuggy-backup-", ReplaceColons(savedAt), ".json";
    var name := prefix + middle + suffix;
    assert name[..|prefix|] == prefix;
    assert forall k :: |prefix| <= k < |prefix| + |middle| ==> name[k] == middle[k - |prefix|];
    assert forall k :: |prefix| + |middle| <= k < |name| ==> name[k] == suffix[k - |prefix| - |middle|];
    name
  }

  function ManualPayload(d: Draft): Json {
    JObj([("app", JStr("Punch Buggy")), ("createdAt", JStr(d.savedAt)), ("version", JStr(d.version)), ("data", d.data)])
  }

  /** `manualBackup()`: the file offered for download. */
  function ManualBackupSpec(c: Config, e: Engine, read: StateRead, savedAt: string): (Engine, Result<Download, Failure>) {
    if !c.supported then (e, Err(Thrown(ERR_UNSUPPORTED)))
    else match BuildEntry(c, read, savedAt, "manual-download")
      case None => (e, Err(Thrown(ERR_NO_STATE)))
      case Some(d) =>
        (WithStatus(c, e, Report("downloaded", MSG_DOWNLOADED, None)),
         Ok(Download(BackupFileName(d.savedAt), ManualPayload(d))))
  }

  // ---------------------------------------------------------------------------------------
  // Properties of the operations

  /** The invariant the engine keeps. */
  predicate EngineValid(c: Config, e: Engine) {
    (e.busy <==> e.inFlight.Some?) &&
    (e.busy ==> c.supported) &&
    (e.pending.Some? ==> c.supported && e.enabled)
  }

  lemma InitValid(c: Config, listener: Option<nat>, storedFlag: Option<string>, cache: Option<CachedMeta>,
                  slots: Slots, metaRecord: Option<MetaRecord>, dbOk: bool)
    ensures EngineValid(c, InitSpec(c, listener, storedFlag, cache, slots, metaRecord, dbOk))
    ensures !InitSpec(c, listener, storedFlag, cache, slots, metaRecord, dbOk).busy
  {
  }

  /**
   * The listener given to `init` is the only callback, and it is told the status twice: as it
   * was before anything was read, and as `init` leaves it.
   */
  lemma InitTellsListener(c: Config, listener: Option<nat>, storedFlag: Option<string>, cache: Option<CachedMeta>,
                          slots: Slots, metaRecord: Option<MetaRecord>, dbOk: bool)
    ensures var e := InitSpec(c, listener, storedFlag, cache, slots, metaRecord, dbOk);
      var before := ViewOf(c, Fresh(c, storedFlag, cache, slots, metaRecord));
      && (listener.None? ==> e.subscribers == map[])
      && (listener.Some? ==> e.subscribers == map[listener.value := [before, ViewOf(c, e)]])
  {
    if listener.Some? {
      var id, e0 := listener.value, Fresh(c, storedFlag, cache, slots, metaRecord);
      var e := InitSpec(c, listener, storedFlag, cache, slots, metaRecord, dbOk);
      var e1 := Subscribe(c, e0, id);
      assert e1.subscribers == map[id := [] + [ViewOf(c, e0)]];
      assert [] + [ViewOf(c, e0)] == [ViewOf(c, e0)];
      var e2 := ReadLocalSpec(e1);
      assert e2.subscribers == e1.subscribers;
      var e3 := if c.supported && dbOk then LoadMetaInto(e2) else e2;
      assert e3.subscribers == e1.subscribers;
      var want := map[id := [ViewOf(c, e0), ViewOf(c, e)]];
      assert e.subscribers == Broadcast(e1.subscribers, ViewOf(c, e));
      assert e.subscribers.Keys == want.Keys;
      assert e.subscribers[id] == [ViewOf(c, e0)] + [ViewOf(c, e)] == want[id];
    }
  }

  lemma HandleStoreSaveValid(c: Config, e: Engine, reason: string)
    requires EngineValid(c, e)
    ensures EngineValid(c, HandleStoreSaveSpec(c, e, reason))
  {
  }

  lemma SetEnabledValid(c: Config, e: Engine, value: bool)
    requires EngineValid(c, e)
    ensures EngineValid(c, SetEnabledSpec(c, e, value))
  {
  }

  lemma PerformBackupValid(c: Config, e: Engine, reason: string, read: StateRead, savedAt: string)
    requires EngineValid(c, e)
    ensures EngineValid(c, PerformBackupSpec(c, e, reason, read, savedAt))
  {
  }

  lemma FireTimerValid(c: Config, e: Engine, read: StateRead, savedAt: string)
    requires EngineValid(c, e)
    ensures EngineValid(c, FireTimerSpec(c, e, read, savedAt))
  {
    if e.pending.Some? {
      PerformBackupValid(c, e.(pending := None), e.pending.value, read, savedAt);
    }
  }

  lemma RestoreValid(c: Config, e: Engine, key: string, applyOk: bool)
    requires EngineValid(c, e)
    ensures EngineValid(c, RestoreSpec(c, e, key, applyOk).0)
  {
  }

  lemma ManualBackupValid(c: Config, e: Engine, read: StateRead, savedAt: string)
    requires EngineValid(c, e)
    ensures EngineValid(c, ManualBackupSpec(c, e, read, savedAt).0)
  {
  }

  lemma FinishPreservesValid(c: Config, e: Engine, txOk: bool)
    requires EngineValid(c, e) && e.inFlight.Some?
    ensures EngineValid(c, FinishBackupSpec(c, e, txOk))
    ensures !FinishBackupSpec(c, e, txOk).busy
  {
  }

  /** A disabled engine reports `disabled` and writes nothing. */
  lemma DisabledWritesNothing(c: Config, e: Engine, reason: string, read: StateRead, savedAt: string)
    requires c.supported && !e.enabled
    ensures var r := PerformBackupSpec(c, e, reason, read, savedAt);
      r.slots == e.slots && r.metaRecord == e.metaRecord && r.busy == e.busy && r.inFlight == e.inFlight &&
      r.status.code == "disabled" && r.lastHash == e.lastHash
  {
  }

  /** A busy engine returns at once: nothing at all changes. */
  lemma BusyIsNoOp(c: Config, e: Engine, reason: string, read: StateRead, savedAt: string)
    requires e.busy && e.enabled
    ensures PerformBackupSpec(c, e, reason, read, savedAt) == e
  {
  }

  /** Data whose hash is the last one stored gives `no-change` and no write. */
  lemma DuplicateWritesNothing(c: Config, e: Engine, reason: string, read: StateRead, savedAt: string)
    requires c.supported && e.enabled && !e.busy
    requires BuildEntry(c, read, savedAt, reason).Some?
    requires IsDuplicate(DataHash(c, BuildEntry(c, read, savedAt, reason).value.data), e.lastHash)
    ensures var r := PerformBackupSpec(c, e, reason, read, savedAt);
      r.slots == e.slots && r.metaRecord == e.metaRecord && !r.busy && r.inFlight == e.inFlight &&
      r.status.code == "no-change" && r.lastHash == e.lastHash && r.metadata == e.metadata
  {
    var r := PerformBackupSpec(c, e, reason, read, savedAt);
    assert r == WithStatus(c, e, Report("no-change", MSG_NO_CHANGE, None));
  }

  /** New data starts a transaction that will write exactly the entry built from it. */
  lemma NewDataStartsWrite(c: Config, e: Engine, reason: string, read: StateRead, savedAt: string)
    requires c.supported && e.enabled && !e.busy
    requires BuildEntry(c, read, savedAt, reason).Some?
    requires !IsDuplicate(DataHash(c, BuildEntry(c, read, savedAt, reason).value.data), e.lastHash)
    ensures var r := PerformBackupSpec(c, e, reason, read, savedAt);
      var d := BuildEntry(c, read, savedAt, reason).value;
      r.busy && r.inFlight == Some(Entry(savedAt, DataHash(c, d.data), d.version, reason, d.data)) &&
      r.slots == e.slots && r.status.code == "busy"
  {
  }

  /**
   * A committed transaction rotates the slots with the new entry, records it in the metadata
   * record, remembers its hash and counts the filled slots; a failed one writes nothing.
   */
  lemma FinishEffects(c: Config, e: Engine, txOk: bool)
    requires e.inFlight.Some?
    ensures var r := FinishBackupSpec(c, e, txOk);
      var entry := e.inFlight.value;
      !r.busy && r.inFlight == None &&
      (txOk ==> r.slots == Rotate(e.slots, entry) && r.metaRecord == Some(MetaRecord(entry.savedAt, entry.hash)) &&
                r.lastHash == entry.hash && r.metadata.backupCount == |ListBackups(true, r.slots)| &&
                r.metadata.currentBackupDate == entry.savedAt && r.status.code == "success") &&
      (!txOk ==> r.slots == e.slots && r.metaRecord == e.metaRecord && r.lastHash == e.lastHash &&
                 r.status.code == "error")
  {
    if txOk {
      RotateShift(e.slots, e.inFlight.value);
    }
  }

  /** After a committed backup, the same data again is a duplicate (when its hash is not empty). */
  lemma BackupThenSameDataIsDuplicate(c: Config, e: Engine, reason: string, read: StateRead,
                                      savedAt: string, reason2: string, savedAt2: string)
    requires EngineValid(c, e)
    requires c.supported && e.enabled && !e.busy
    requires BuildEntry(c, read, savedAt, reason).Some?
    requires DataHash(c, BuildEntry(c, read, savedAt, reason).value.data) != ""
    ensures var started := PerformBackupSpec(c, e, reason, read, savedAt);
      started.inFlight.Some? ==>
        var done := FinishBackupSpec(c, started, true);
        PerformBackupSpec(c, done, reason2, read, savedAt2).status.code == "no-change" &&
        PerformBackupSpec(c, done, reason2, read, savedAt2).slots == done.slots
  {
    var started := PerformBackupSpec(c, e, reason, read, savedAt);
    var d := BuildEntry(c, read, savedAt, reason).value;
    var hash := DataHash(c, d.data);
    if started.inFlight.Some? {
      assert !IsDuplicate(hash, e.lastHash);
      NewDataStartsWrite(c, e, reason, read, savedAt);
      var done := FinishBackupSpec(c, started, true);
      FinishEffects(c, started, true);
      assert done.lastHash == hash && done.enabled && !done.busy;
      DuplicateIgnoresTimeAndReason(c, read, savedAt, reason, savedAt2, reason2);
      DuplicateWritesNothing(c, done, reason2, read, savedAt2);
    }
  }

  /** `handleStoreSave` does nothing when unsupported or disabled, and otherwise keeps one timer. */
  lemma HandleStoreSaveEffects(c: Config, e: Engine, reason: string)
    ensures !c.supported || !e.enabled ==> HandleStoreSaveSpec(c, e, reason) == e
    ensures c.supported && e.enabled ==> HandleStoreSaveSpec(c, e, reason) == e.(pending := Some(reason))
  {
  }

  /** Turning backups off cancels the pending timer and reports `disabled`. */
  lemma DisableCancelsTimer(c: Config, e: Engine)
    requires e.enabled
    ensures var r := SetEnabledSpec(c, e, false);
      r.pending == None && !r.enabled && r.status.code == "disabled" && !ViewOf(c, r).enabled &&
      r.storedFlag == Some("false")
  {
  }

  /** Turning backups on schedules a backup for `enabled-toggle`, when the store is supported. */
  lemma EnableSchedulesBackup(c: Config, e: Engine)
    requires !e.enabled && c.supported
    ensures var r := SetEnabledSpec(c, e, true);
      r.enabled && r.pending == Some("enabled-toggle") && r.status.code == "idle" && r.storedFlag == Some("true")
  {
  }

  /** `restoreFromBackup` with a key other than the three slot names throws and changes nothing. */
  lemma RestoreUnknownSlot(c: Config, e: Engine, key: string, applyOk: bool)
    requires c.supported && key != CURRENT_KEY && key != PREVIOUS_KEY && key != OLDEST_KEY
    ensures RestoreSpec(c, e, key, applyOk) == (e, Err(Thrown(ERR_UNKNOWN_SLOT)))
  {
  }

  /** An empty slot throws before `applyState` is reached. */
  lemma RestoreEmptySlot(c: Config, e: Engine, key: string, applyOk: bool)
    requires c.supported && SlotOf(e.slots, key) == Some(None)
    ensures RestoreSpec(c, e, key, applyOk) == (e, Err(Thrown(ERR_EMPTY_SLOT)))
  {
  }

  /** A filled slot hands its data to `applyState` and returns it. */
  lemma RestoreFilledSlot(c: Config, e: Engine, key: string)
    requires c.supported && SlotOf(e.slots, key).Some? && SlotOf(e.slots, key).value.Some?
    requires Truthy(SlotOf(e.slots, key).value.value.data)
    ensures var (r, out) := RestoreSpec(c, e, key, true);
      var data := SlotOf(e.slots, key).value.value.data;
      out == Ok(data) && r.slots == e.slots && r.status.code == "restored" &&
      r.applied == (if c.hasApply then e.applied + [data] else e.applied)
  {
  }

  // ---------------------------------------------------------------------------------------
  // The singleton

  class AutoBackup {
    const supported: bool
    const subtle: Option<string -> seq<bv8>>
    const appVersion: string
    const hasGetter: bool
    const hasApply: bool

    var enabled: bool
    var busy: bool
    var inFlight: Option<Entry>
    var pending: Option<string>
    var lastHash: string
    var status: Status
    var metadata: Metadata
    var slots: Slots
    var metaRecord: Option<MetaRecord>
    var storedFlag: Option<string>
    var cache: Option<CachedMeta>
    var subscribers: map<nat, seq<StatusView>>
    var applied: seq<Json>

    function Cfg(): Config {
      Config(supported, subtle, appVersion, hasGetter, hasApply)
    }

    function Model(): Engine
      reads this
    {
      Engine(enabled, busy, inFlight, pending, lastHash, status, metadata, slots, metaRecord,
             storedFlag, cache, subscribers, applied)
    }

    predicate Valid()
      reads this
    {
      EngineValid(Cfg(), Model())
    }

    /** `init(options)`, with the store's contents and the stored flag and cache as they are found. */
    constructor (c: Config, listener: Option<nat>, storedFlag0: Option<string>, cache0: Option<CachedMeta>,
                 slots0: Slots, metaRecord0: Option<MetaRecord>, dbOk: bool)
      ensures Cfg() == c
      ensures Model() == InitSpec(c, listener, storedFlag0, cache0, slots0, metaRecord0, dbOk)
      ensures Valid()
    {
      supported, subtle, appVersion, hasGetter, hasApply := c.supported, c.subtle, c.appVersion, c.hasGetter, c.hasApply;
      enabled, busy, inFlight, pending, lastHash := true, false, None, None, "";
      status, metadata := InitialStatus(c), EMPTY_METADATA;
      slots, metaRecord, storedFlag, cache := slots0, metaRecord0, storedFlag0, cache0;
      subscribers, applied := map[], [];
      new;
      if listener.Some? {
        OnStatusChange(listener.value);
      }
      ReadLocalStorage();
      OpenStore(dbOk);
      InitValid(c, listener, storedFlag0, cache0, slots0, metaRecord0, dbOk);
    }

    method ReadLocalStorage()
      modifies this
      ensures Model() == ReadLocalSpec(old(Model()))
    {
      enabled := LoadEnabledFlag(storedFlag);
      if cache.Some? {
        metadata := cache.value.metadata;
        if cache.value.lastHash != "" {
          lastHash := cache.value.lastHash;
        }
      }
    }

    method OpenStore(dbOk: bool)
      modifies this
      ensures Model() == OpenStoreSpec(Cfg(), old(Model()), dbOk)
    {
      if !supported {
        UpdateStatus(Report("unsupported", MSG_UNSUPPORTED, Some(false)));
        return;
      }
      if !dbOk {
        UpdateStatus(Report("error", MSG_INIT_FAILED, Some(false)));
        return;
      }
      LoadMetadataFromDb();
      if enabled {
        UpdateStatus(Report("idle", ReadyMessage(metadata), None));
      } else {
        UpdateStatus(Report("disabled", MSG_DISABLED, Some(false)));
      }
    }

    function GetStatus(): StatusView
      reads this
    {
      ViewOf(Cfg(), Model())
    }

    method UpdateStatus(u: StatusUpdate)
      modifies this
      ensures Model() == WithStatus(Cfg(), old(Model()), u)
    {
      status := Status(u.code, u.message, enabled && supported && u.enabled != Some(false), metadata);
      subscribers := Broadcast(subscribers, GetStatus());
    }

    method LoadMetadataFromDb()
      modifies this
      ensures Model() == LoadMetaInto(old(Model()))
    {
      var (m, h) := LoadMetadata(slots, metaRecord, lastHash);
      metadata, lastHash := m, h;
      cache := Some(CachedMeta(metadata, lastHash));
    }

    method OnStatusChange(id: nat)
      modifies this
      ensures Model() == Subscribe(Cfg(), old(Model()), id)
    {
      var seen := if id in subscribers then subscribers[id] else [];
      subscribers := subscribers[id := seen + [GetStatus()]];
    }

    method HandleStoreSave(reason: string)
      modifies this
      ensures Model() == HandleStoreSaveSpec(Cfg(), old(Model()), reason)
    {
      if !supported || !enabled {
        return;
      }
      pending := Some(reason);
    }

    method SetEnabled(value: bool)
      modifies this
      ensures Model() == SetEnabledSpec(Cfg(), old(Model()), value)
    {
      if value == enabled {
        var v := GetStatus();
        UpdateStatus(Report(v.code, v.message, Some(v.enabled)));
        return;
      }
      enabled := value;
      storedFlag := Some(if value then "true" else "false");
      if !value && pending.Some? {
        pending := None;
      }
      if !value {
        UpdateStatus(Report("disabled", MSG_DISABLED, Some(false)));
      } else {
        UpdateStatus(Report("idle", ReadyMessage(metadata), Some(true)));
        HandleStoreSave("enabled-toggle");
      }
    }

    method PerformBackup(reason: string, read: StateRead, savedAt: string)
      modifies this
      ensures Model() == PerformBackupSpec(Cfg(), old(Model()), reason, read, savedAt)
    {
      if !supported {
        return;
      }
      if !enabled {
        UpdateStatus(Report("disabled", MSG_DISABLED, Some(false)));
        return;
      }
      if busy {
        return;
      }
      var entry := BuildEntry(Cfg(), read, savedAt, reason);
      if entry.None? {
        return;
      }
      var json := Serialize(entry.value.data);
      var hash := ComputeDigest(subtle, json, Absolute);
      if hash != "" && lastHash != "" && hash == lastHash {
        UpdateStatus(Report("no-change", MSG_NO_CHANGE, None));
        return;
      }
      busy := true;
      UpdateStatus(Report("busy", MSG_BUSY, None));
      inFlight := Some(Entry(entry.value.savedAt, hash, entry.value.version, reason, entry.value.data));
    }

    method FinishBackup(txOk: bool)
      requires inFlight.Some?
      modifies this
      ensures Model() == FinishBackupSpec(Cfg(), old(Model()), txOk)
    {
      if txOk {
        Commit(inFlight.value);
      } else {
        UpdateStatus(Report("error", MSG_FAILED, None));
      }
      busy := false;
      inFlight := None;
    }

    method Commit(entry: Entry)
      modifies this
      ensures Model() == CommitSpec(Cfg(), old(Model()), entry)
    {
      ghost var e := Model();
      slots := Rotate(slots, entry);
      metaRecord := Some(MetaRecord(entry.savedAt, entry.hash));
      lastHash := entry.hash;
      assert Model() == Stored(e, entry);
      LoadMetadataFromDb();
      UpdateStatus(Report("success", MSG_SUCCESS, None));
    }

    method FireTimer(read: StateRead, savedAt: string)
      modifies this
      ensures Model() == FireTimerSpec(Cfg(), old(Model()), read, savedAt)
    {
      if pending.None? {
        return;
      }
      var reason := pending.value;
      pending := None;
      PerformBackup(reason, read, savedAt);
    }

    method RestoreFromBackup(key: string, applyOk: bool) returns (out: Result<Json, Failure>)
      modifies this
      ensures (Model(), out) == RestoreSpec(Cfg(), old(Model()), key, applyOk)
    {
      if !supported {
        return Err(Thrown(ERR_UNSUPPORTED));
      }
      var slot := SlotOf(slots, key);
      if slot.None? {
        return Err(Thrown(ERR_UNKNOWN_SLOT));
      }
      var record := slot.value;
      if record.None? || !Truthy(record.value.data) {
        return Err(Thrown(ERR_EMPTY_SLOT));
      }
      var clone := record.value.data;
      if hasApply {
        if !applyOk {
          return Err(ApplyStateThrew);
        }
        applied := applied + [clone];
      }
      var when := if record.value.savedAt != "" then record.value.savedAt else "unknown time";
      UpdateStatus(Report("restored", "Restored " + key + " backup from " + when + ".", None));
      return Ok(clone);
    }

    method ManualBackup(read: StateRead, savedAt: string) returns (out: Result<Download, Failure>)
      modifies this
      ensures (Model(), out) == ManualBackupSpec(Cfg(), old(Model()), read, savedAt)
    {
      if !supported {
        return Err(Thrown(ERR_UNSUPPORTED));
      }
      var entry := BuildEntry(Cfg(), read, savedAt, "manual-download");
      if entry.None? {
        return Err(Thrown(ERR_NO_STATE));
      }
      var fileName := BackupFileName(entry.value.savedAt);
      UpdateStatus(Report("downloaded", MSG_DOWNLOADED, None));
      return Ok(Download(fileName, ManualPayload(entry.value)));
    }

    function ListBackupsNow(): (r: seq<Listing>)
      reads this
      ensures r == ListBackups(Cfg().supported, slots)
      ensures |r| == if supported then CountSlots(slots) else 0
    {
      ListBackups(supported, slots)
    }
  }
}
