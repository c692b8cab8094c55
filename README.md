# Punch Buggy: a verified model of its state, backup and version logic

Punch Buggy is a two-player score keeper that runs in the browser. This project models the
logic behind it in Dafny:

- the game state of `src/main.js`: scoring with streaks, the bounded undo stack, round
  recording, the leaderboard tallies, save/load with legacy round entries, and the import
  normaliser;
- the embedded-store backup engine `AutoBackup` of `src/auto-backup.js`: three generational
  slots, a duplicate test on the content hash, a debounce timer and an enabled switch;
- the directory backup engine `Backup` of `backup.js`: a latest file, one daily file per UTC
  date, pruning to fourteen daily files, and a permission decision;
- the schema migration of `archive/migrations/migrate-to-v2.js`;
- the release scripts `scripts/bump-version.js` and `scripts/check-versions.js`.

Storage is modelled as maps:

- `localStorage` is a map from keys to texts;
- the IndexedDB object store is a record of slots;
- a backup folder is a map from names to files.

Everything the code gets from outside becomes a parameter:

- what `JSON.parse` makes of a text (`Json.Text`);
- the SHA-256 digest (an optional function);
- the answers of the permission prompts;
- the clock's readings;
- which writes fail.

Each object whose fields the source updates in place is a Dafny `class`:

- the `AutoBackup` singleton;
- the `Backup` singleton;
- the `state` object of `src/main.js`;
- `localStorage` for the migration.

Each method of these classes is proved equal to a specification function on a datatype of that
state. Lemmas then prove the properties the code promises about those functions.

Modules, by file:

| file | module | what |
|---|---|---|
| `wrappers.dfy` | `Wrappers` | `Option` and `Result` |
| `listeners.dfy` | `Listeners` | the status callbacks both backup engines notify |
| `strings.dfy` | `Strings` | decimal and hexadecimal digits, JavaScript white space, `trim`, `split`/`join` |
| `json.dfy` | `Json` | JSON values with ordered members, `JSON.stringify`, truthiness, `Number()` |
| `hashing.dfy` | `Hashing` | the fallback checksum and the digest of `_hash` |
| `snapshot.dfy` | `Snapshot` | the capped clone of the game state used by both engines |
| `lex_order.dfy` | `LexOrder` | the default `Array.prototype.sort` order on names, and a sort |
| `rounds.dfy` | `Rounds` | legacy round entries, the leaderboard tallies, percentages, streak badges |
| `game_state.dfy` | `GameState` | the `state` object and its handlers |
| `import_state.dfy` | `ImportState` | export and `normalizeImportedState` |
| `auto_backup.dfy` | `AutoBackupEngine` | `AutoBackup` |
| `directory_backup.dfy` | `DirectoryBackup` | `Backup` |
| `migration.dfy` | `Migration` | `migrate`, `backupRawState`, `migrateIfNeeded` |
| `patterns.dfy` | `Patterns` | the three regular expressions of the release scripts (two shapes), as matchers |
| `bump_version.dfy` | `BumpVersion` | `scripts/bump-version.js` |
| `check_versions.dfy` | `CheckVersions` | `scripts/check-versions.js`, and the bump followed by the audit |

Asynchronous operations are split at the points where other calls can interleave:

- `AutoBackup.performBackup` becomes `PerformBackup` (up to `_busy = true`) and `FinishBackup`
  (the transaction and the `finally`).
- `Backup.performBackup` becomes `PerformBackup` (the checks and `_busy = true`) and
  `CompleteBackup` (everything after the first `await`, with its environment given as one
  `Env` value). The permission decision tests the handle before that `await`, so it always
  sees the folder the backup started with. The writes use the folder connected when the
  backup completes, and they fail when no folder is connected then.
- A pending debounce timer is a field, and `FireTimer` is the step in which it fires.

Behaviour of the code that the model exhibits, where a reader might expect otherwise:

- **Migration avatar.** `migrate` keeps a truthy avatar that is not a string (`Migration.FixAvatar`).
- **Non-object saves.** `migrate` never stamps a save that is not an object, so every call
  migrates it again (`Migration.NonObjectsAreNeverStamped`).
- **Directory timer.** The timer callback of `Backup.handleStoreSave` never clears
  `_pendingTimer`. `clearBackupData` leaves a pending timer armed, and when it fires the backup
  reports `no-handle` (`DirectoryBackup.ClearThenTimerReportsNoHandle`).
- **Directory duplicate test.** The payload hashed by `Backup.performBackup` holds a fresh
  timestamp, so the duplicate test fires only for equal content taken at the same instant
  (`DirectoryBackup.PayloadTextFixesTimestamp`).
- **Manifest paths.** `bump-version.js` rewrites `manifest.webmanifest` at the repository root,
  while `check-versions.js` reads `public/manifest.webmanifest`. After a bump, the audit passes
  only when the public manifest has no version or already has the new one
  (`CheckVersions.BumpThenAudit`).
- **`hydrateMetaFromDb`.** `Backup.hydrateMetaFromDb` has no caller in these files; it is
  modelled as an operation of its own.

## Model

| member | source | states |
|---|---|---|
| Hashing.ToInt32 | src/auto-backup.js:355 | `x \| 0` is the signed 32-bit value congruent to `x` modulo 2^32 |
| Hashing.ShiftStep | src/auto-backup.js:354-355 | `((h << 5) - h) + c`, wrapped to 32 bits, equals `(31 * h + c) \| 0` |
| Hashing.FallbackChecksum | src/auto-backup.js:352-356 | the checksum loop over the UTF-16 code units computes the rolling hash, a signed 32-bit value |
| Hashing.HexString | src/auto-backup.js:347 | the hex rendering of a digest has two lower-case hex digits per byte |
| Hashing.ComputeDigest | src/auto-backup.js:341-358 | `_hash` is the SHA-256 hex digest when `crypto.subtle` works, the fallback checksum otherwise |
| Hashing.FallbackIsNotHex | src/auto-backup.js:357 | a fallback digest is never empty and never equal to a hex digest |
| Hashing.RenderEqual | backup.js:268 | without `crypto.subtle`, two checksums give equal digests iff they are equal (signed rendering, `backup.js`) or equal up to sign (`Math.abs`, `src/auto-backup.js`) |
| Snapshot.KeepLastOf | src/auto-backup.js:281-286 | an array member is cut to its last `cap` entries; any other value and every other member is unchanged |
| Snapshot.CloneState | src/auto-backup.js:278-287 | `history` and `roundWinners` are cut to their last entries, a non-object is returned as it is, and every other member is unchanged |
| Snapshot.KeepLastOfShort | src/auto-backup.js:281-286 | a list that is already short enough is left unchanged |
| Snapshot.CloneStateIdempotent | src/auto-backup.js:278-287 | cloning a clone changes nothing |
| LexOrder.SortNames | backup.js:240 | `entries.sort()` on distinct names returns a permutation of them in the default code-unit order |
| LexOrder.SortedUnique | backup.js:240 | a strictly sorted list of a set of names is unique |
| Rounds.LegacyWinner | src/main.js:111-115 | `'A'` and `'B'` stand for themselves; every other string is a tie |
| Rounds.LegacyEntry | src/main.js:266-271 | a string entry becomes a 0-0 record for its winner; anything else is unchanged |
| Rounds.LegacyEntryIdempotent | src/main.js:264-273 | mapping twice is mapping once |
| Rounds.LoadRounds | src/main.js:264-273 | `load` maps every entry and drops none |
| Rounds.ImportRounds | src/main.js:543-552 | the import normaliser keeps only truthy non-string entries, and never adds any |
| Rounds.ImportRoundsKeepsRecords | src/main.js:543-552 | rounds that are already records pass through unchanged |
| Rounds.LeaderboardRounds | src/main.js:108-119 | the leaderboard keeps only truthy records, and never adds any |
| Rounds.LeaderboardLegacy | src/main.js:108-119 | the leaderboard drops exactly the falsy entries; otherwise it maps each entry as `load` does |
| Rounds.LoadedLeaderboardIsImported | src/main.js:108-119 | a state restored by `load` and one restored by an import show the same leaderboard |
| Rounds.TallyRounds | src/main.js:161-172 | the `forEach` loop computes the tallies of the rounds taken in order |
| Rounds.TallyCountsEveryRound | src/main.js:166-172 | winsA + winsB + ties equals the number of rounds |
| Rounds.TallyAppendRecord | src/main.js:166-172 | one more record adds one to exactly its winner's counter, and its scores to the totals |
| Rounds.TallyAppend | src/main.js:166-172 | the same, for any round object whose fields read as given |
| Rounds.PercentShares | src/main.js:174-177 | the two shares are between 0 and 100 and sum to 100; the share is 50 with no decisive round or equal wins; more wins never give the smaller share |
| Rounds.StreakTierMonotone | src/main.js:85-91 | badges start at 3, 5 and 10, and a longer streak never shows a lesser badge |
| GameState.Winner | src/main.js:345-347 | `A` iff a > b, `B` iff b > a, `T` iff a == b |
| GameState.HandlersPreserveValid | src/main.js:315-319 | no handler lets the undo stack grow beyond 50 |
| GameState.PushUndoBounded | src/main.js:315-319 | the stack keeps the newest 50 snapshots in order, the state is the newest, and the oldest snapshot is the one dropped |
| GameState.ScoreEffects | src/main.js:285-313 | the score becomes max(0, score + d); a point adds to the scorer's streak and ends the other's, and a correction ends the scorer's own; one log line is added and nothing else changes |
| GameState.UndoEmptyIsNoOp | src/main.js:335 | `undo` on an empty stack changes nothing |
| GameState.ScoreThenUndo | src/main.js:334-341 | `score` then `undo` restores the state and saves it again; the stack loses only the snapshot it pushed, or its oldest one when full |
| GameState.RecordRoundWinnerEffects | src/main.js:342-352 | exactly one record with the current scores and the right winner is appended; the players and the round are unchanged |
| GameState.RecordedRoundIsTallied | src/main.js:342-348 | after a round is recorded, exactly its winner's leaderboard counter grows by one |
| GameState.NextRoundEffects | src/main.js:354-364 | one record is appended and the round goes up by exactly one; scores and streaks become zero; names and avatars are kept |
| GameState.ResetEffects | src/main.js:321-332 | once confirmed: round 1, zero scores and streaks, no log and no rounds, names kept; when declined, nothing changes |
| GameState.ClearAllAppDataEffects | src/main.js:453-468 | the state of a fresh game with the schema version kept; nothing is saved exactly when the removal succeeded; the undo stack is kept |
| GameState.SaveThenLoad | src/main.js:255-278 | loading the text `save` wrote (read back by `JSON.parse`) completes and is `Object.assign` of the saved state, so every saved key comes back when the rounds hold no legacy strings; the undo stack starts empty |
| GameState.LoadOutcomes | src/main.js:259-278 | `load` throws exactly when a non-empty save does not parse or parses to `null`, and then changes nothing; when it completes, the undo stack is empty and the new state is saved |
| GameState.LoadAssignsCarriedKeys | src/main.js:261-277 | a partial save replaces only the keys it carries, the rounds after their legacy strings are mapped; every other key keeps its value, and a save that is not an object changes no key |
| GameState.AssignSavedBack | src/main.js:255-277 | assigning the object `save` wrote is assigning the saved state, when its rounds hold no legacy strings |
| GameState.SavedLookups | src/main.js:255-258 | each key of the state is found in the saved object with its value; `schemaVersion` only when the state has one |
| GameState.SavedPlayersBack | src/main.js:255-258 | both players read back from the saved `players` object as they were |
| GameState.ThreeHitsSmolder | src/main.js:89-91 | three points in a row from no streak light the first streak badge |
| GameState.GameState.constructor | src/main.js:5-15 | the initial state literal, with nothing saved |
| GameState.GameState.Render | src/main.js:76 | `render` saves the state without its undo stack |
| GameState.GameState.Log | src/main.js:280-283 | appends to the log and renders |
| GameState.GameState.PushUndoState | src/main.js:315-319 | pushes a copy of the state and drops the oldest snapshot beyond 50 |
| GameState.GameState.Score | src/main.js:285-313 | `score(p, d)` as `ScoreSpec`, keeping the stack bound |
| GameState.GameState.Undo | src/main.js:334-341 | `undo` as `UndoSpec`, keeping the stack bound |
| GameState.GameState.RecordRoundWinner | src/main.js:342-352 | `recordRoundWinner` as `RecordRoundWinnerSpec` |
| GameState.GameState.NextRound | src/main.js:354-364 | `nextRound` as `NextRoundSpec` |
| GameState.GameState.Reset | src/main.js:321-332 | `reset` as `ResetSpec`, with the answer to `confirm` as a parameter |
| GameState.GameState.ClearBoard | src/main.js:389-394 | the clear-board button empties the finished rounds once confirmed |
| GameState.GameState.Rename | src/main.js:606-613 | a name input changes that player's name and renders |
| GameState.GameState.ClearAllAppData | src/main.js:453-468 | `clearAllAppData` as `ClearAllAppDataSpec` |
| GameState.GameState.Load | src/main.js:259-278 | `load` as `LoadSpec`: parse the stored text, throw on a text that is not JSON or is `null`, map the legacy rounds, assign the keys the save carries, empty the undo stack and render |
| Json.NumberOfString | src/main.js:515 | `Number` reads back the decimal text of every integer, with either sign |
| Json.HexTextNumber | src/main.js:515 | an imported score of `"0x10"` is the number 16 |
| Json.BinaryTextNumber | archive/migrations/migrate-to-v2.js:33 | a saved score of `"0b11"` is the number 3 |
| Json.ExponentTextNumber | src/main.js:523-524 | an imported round of `"1e3"` is the number 1000 |
| Json.ZeroFractionTextNumber | src/main.js:523-524 | an imported round of `"5.0"` is the number 5 |
| Json.NestedArrayNumber | src/main.js:515 | an array is read through its joined text, so `[[5]]` is the number 5 |
| ImportState.ImportName | src/main.js:498-520 | an imported name is always shown: it is not empty and has no white space at either end |
| ImportState.ImportedRounds | src/main.js:534-553 | every imported round is a truthy non-string |
| ImportState.NormalizeImported | src/main.js:491-575 | `invalid` exactly for non-objects; otherwise both names are shown, the round is at least 1, and every round is an object |
| ImportState.ImportOnlyOnSuccess | src/main.js:578-601 | an import changes the game only when it succeeds, which is exactly for a confirmed object file; the undo stack is never touched |
| ImportState.ImportedStateIsSound | src/main.js:578-601 | a successful import leaves shown names and a round of at least 1 |
| ImportState.ExportKeys | src/main.js:477-488 | the export holds the state's keys in order, the undo stack included |
| ImportState.ExportThenImport | src/main.js:491-575 | normalising an export gives back its state, for every state an import can produce whose log entries are strings |
| ImportState.ImportOwnExport | src/main.js:578-601 | importing an export into any session brings back that game, and the session keeps its undo stack |
| ImportState.ImportFile | src/main.js:578-601 | the import handler acts on the game as `ImportSpec` says |
| AutoBackupEngine.RotateShift | src/auto-backup.js:154-173 | the new entry becomes `current` and the old `current` (or nothing) `previous`; the old `previous` becomes `oldest` when there was one, otherwise `oldest` keeps its entry; no other entry enters |
| AutoBackupEngine.RotatePacked | src/auto-backup.js:154-173 | from slots that filled in order, a rotation adds one generation, up to three |
| AutoBackupEngine.RotateGenerations | src/auto-backup.js:157-173 | B1, B2, B3 from empty give current = B3, previous = B2, oldest = B1; a fourth backup pushes B1 out |
| AutoBackupEngine.SlotOf | src/auto-backup.js:233-236 | a key names a slot exactly when it is one of the three slot keys |
| AutoBackupEngine.ListBackups | src/auto-backup.js:217-227 | only the filled slots, in the order current, previous, oldest, each with its slot's date and its version or `unknown` when that is empty; nothing when unsupported |
| AutoBackupEngine.LoadMetadata | src/auto-backup.js:308-339 | `backupCount` is the number of filled slots; the dates are those of the slots; the last hash comes from the record when it has one |
| AutoBackupEngine.LoadMetaInto | src/auto-backup.js:308-339 | the engine's count is the number of filled slots, and the cached copy matches the metadata |
| AutoBackupEngine.BuildEntry | src/auto-backup.js:258-276 | no entry exactly when the getter is missing, throws or gives a non-object; otherwise the capped clone, with the app version or `dev` when that is empty |
| AutoBackupEngine.DuplicateIgnoresTimeAndReason | src/auto-backup.js:132-136 | the hash of an entry covers its data only, not its time or its reason |
| AutoBackupEngine.ReplaceColons | src/auto-backup.js:203 | `replace(/[:]/g, '-')` turns every colon into a dash and keeps every other character |
| AutoBackupEngine.BackupFileName | src/auto-backup.js:203-204 | the download name has the backup prefix and no colon |
| Listeners.Broadcast | src/auto-backup.js:372-378 | every callback, and no other, is told the value once more (also `backup.js:366-368`) |
| AutoBackupEngine.WithStatus | src/auto-backup.js:360-379 | the new status, with `enabled` only when supported and not turned off; then every callback is told `getStatus()`; nothing else changes |
| AutoBackupEngine.WithStatusTellsEveryone | src/auto-backup.js:372-378 | every callback receives exactly one more view, holding the new code |
| AutoBackupEngine.Subscribe | src/auto-backup.js:77-81 | the callback joins the set and is told the status at once |
| AutoBackupEngine.Unsubscribe | src/auto-backup.js:82 | the callback leaves the set |
| AutoBackupEngine.LoadEnabledFlag | src/auto-backup.js:396-405 | enabled unless a stored flag says something other than `true` |
| AutoBackupEngine.InitValid | src/auto-backup.js:37-75 | `init` establishes the engine invariant: busy iff a transaction is in flight, busy only when supported, a timer only when supported and enabled |
| AutoBackupEngine.InitTellsListener | src/auto-backup.js:40-42 | the `onStatusChange` option given to `init` is its only callback; it is told the status before anything is read and the status `init` ends with |
| AutoBackupEngine.HandleStoreSaveValid | src/auto-backup.js:114-123 | `handleStoreSave` keeps the invariant |
| AutoBackupEngine.SetEnabledValid | src/auto-backup.js:93-112 | `setEnabled` keeps the invariant |
| AutoBackupEngine.PerformBackupValid | src/auto-backup.js:125-142 | the start of `performBackup` keeps the invariant |
| AutoBackupEngine.FireTimerValid | src/auto-backup.js:119-122 | the firing timer keeps the invariant |
| AutoBackupEngine.RestoreValid | src/auto-backup.js:229-256 | `restoreFromBackup` keeps the invariant |
| AutoBackupEngine.ManualBackupValid | src/auto-backup.js:187-215 | `manualBackup` keeps the invariant |
| AutoBackupEngine.FinishPreservesValid | src/auto-backup.js:179-184 | the end of `performBackup` keeps the invariant, and `_busy` is false after success and after error |
| AutoBackupEngine.DisabledWritesNothing | src/auto-backup.js:127-130 | a disabled engine reports `disabled` and writes nothing |
| AutoBackupEngine.BusyIsNoOp | src/auto-backup.js:131 | a busy engine returns and nothing changes |
| AutoBackupEngine.DuplicateWritesNothing | src/auto-backup.js:134-139 | data whose hash is the last one reports `no-change` and writes no slot and no metadata |
| AutoBackupEngine.NewDataStartsWrite | src/auto-backup.js:132-142 | new data starts a transaction that carries exactly the entry built from it, its hash and its reason |
| AutoBackupEngine.FinishEffects | src/auto-backup.js:143-184 | a committed transaction rotates the slots, records the entry and its hash and counts the slots; a failed one writes nothing and reports `error` |
| AutoBackupEngine.BackupThenSameDataIsDuplicate | src/auto-backup.js:134-176 | after a committed backup, the same data again reports `no-change` |
| AutoBackupEngine.HandleStoreSaveEffects | src/auto-backup.js:114-123 | nothing happens when unsupported or disabled; otherwise the one pending timer is replaced |
| AutoBackupEngine.DisableCancelsTimer | src/auto-backup.js:93-106 | `setEnabled(false)` cancels the timer, stores the flag and reports `disabled` |
| AutoBackupEngine.EnableSchedulesBackup | src/auto-backup.js:107-111 | `setEnabled(true)` stores the flag and schedules an `enabled-toggle` backup |
| AutoBackupEngine.RestoreUnknownSlot | src/auto-backup.js:233-236 | an unknown key throws `Unknown backup slot.` and changes nothing |
| AutoBackupEngine.RestoreEmptySlot | src/auto-backup.js:240-244 | an empty slot throws before `applyState` is reached |
| AutoBackupEngine.RestoreFilledSlot | src/auto-backup.js:245-255 | a filled slot hands its data to `applyState` and returns it |
| AutoBackupEngine.AutoBackup.constructor | src/auto-backup.js:37-75 | `init` as `InitSpec`: the `onStatusChange` option is subscribed first, then the flag and cache are read and the store opened; establishes the invariant |
| AutoBackupEngine.AutoBackup.ReadLocalStorage | src/auto-backup.js:44-51 | reads the enabled flag and the cached metadata |
| AutoBackupEngine.AutoBackup.OpenStore | src/auto-backup.js:53-74 | opens the store, or reports why it cannot, and loads its metadata |
| AutoBackupEngine.AutoBackup.UpdateStatus | src/auto-backup.js:360-379 | `_updateStatus` as `WithStatus` |
| AutoBackupEngine.AutoBackup.LoadMetadataFromDb | src/auto-backup.js:308-339 | `_loadMetadataFromDb` as `LoadMetaInto` |
| AutoBackupEngine.AutoBackup.OnStatusChange | src/auto-backup.js:77-81 | `onStatusChange` as `Subscribe` |
| AutoBackupEngine.AutoBackup.HandleStoreSave | src/auto-backup.js:114-123 | `handleStoreSave` as `HandleStoreSaveSpec` |
| AutoBackupEngine.AutoBackup.SetEnabled | src/auto-backup.js:93-112 | `setEnabled` as `SetEnabledSpec` |
| AutoBackupEngine.AutoBackup.PerformBackup | src/auto-backup.js:125-142 | `performBackup` up to `_busy = true`, as `PerformBackupSpec` |
| AutoBackupEngine.AutoBackup.FinishBackup | src/auto-backup.js:143-184 | the transaction and the `finally`, as `FinishBackupSpec` |
| AutoBackupEngine.AutoBackup.Commit | src/auto-backup.js:154-178 | the writes of a committed transaction, then the metadata reload and `success` |
| AutoBackupEngine.AutoBackup.FireTimer | src/auto-backup.js:119-122 | the timer forgets itself and starts a backup |
| AutoBackupEngine.AutoBackup.RestoreFromBackup | src/auto-backup.js:229-256 | `restoreFromBackup` as `RestoreSpec` |
| AutoBackupEngine.AutoBackup.ManualBackup | src/auto-backup.js:187-215 | `manualBackup` as `ManualBackupSpec`: the download, or the reason it failed |
| AutoBackupEngine.AutoBackup.ListBackupsNow | src/auto-backup.js:217-227 | the listings of `ListBackups` for the engine's store: as many as filled slots, none when unsupported |
| DirectoryBackup.EnsurePermission | backup.js:188-206 | granted iff there is a handle and either there is no `queryPermission`, it answers `granted`, or a request was made and granted |
| DirectoryBackup.AutoNeverRequests | backup.js:127 | an `auto` backup never consults `requestPermission` |
| DirectoryBackup.BuildPayload | backup.js:208-224 | none when `getState` throws; `{}` for a falsy state; otherwise the timestamp, the version (`dev` by default), the reason and the clone capped at 120 |
| DirectoryBackup.PayloadText | backup.js:218-223 | the payload text is the timestamp member followed by a text that does not depend on the clock |
| DirectoryBackup.PayloadTextFixesTimestamp | backup.js:219 | equal payload texts have equal timestamps |
| DirectoryBackup.WriteFile | backup.js:226-231 | a write fails exactly for a failing name or a sub-folder of that name |
| DirectoryBackup.DailyName | backup.js:145 | a daily file name carries the daily prefix |
| DirectoryBackup.LatestIsNotDaily | backup.js:142-145 | the latest file is never a daily file |
| DirectoryBackup.DailyNames | backup.js:234-239 | the collected names are exactly the files with the daily prefix |
| DirectoryBackup.RemovedCount | backup.js:241-249 | names are removed from the front while more than fourteen are left, stopping at the first failure |
| DirectoryBackup.PruneLoopRemoves | backup.js:241-249 | the loop removes exactly the first `RemovedCount` names |
| DirectoryBackup.PruneTouchesOnlyDaily | backup.js:233-250 | pruning removes daily files only and changes no entry it keeps |
| DirectoryBackup.PruneKeepsFourteen | backup.js:233-250 | without failures, exactly min(n, 14) daily files remain |
| DirectoryBackup.RemovedWithoutFailures | backup.js:241-249 | without failures, the loop stops exactly when fourteen names are left |
| DirectoryBackup.DailyAfterPrune | backup.js:233-250 | the daily files that remain are the names after the removed front of the sorted list |
| DirectoryBackup.PruneRemovesOldest | backup.js:240-249 | every removed daily file sorts before every kept one |
| DirectoryBackup.PruneStopsAtFailure | backup.js:243-247 | a failing removal ends pruning without an error; it and every later name stay |
| DirectoryBackup.WithStatus | backup.js:357-369 | the update over the defaults, the connected folder's name, and the last backup time when the update has none; every callback is told |
| DirectoryBackup.Subscribe | backup.js:44-50 | the callback joins the set and is told the current status |
| DirectoryBackup.Unsubscribe | backup.js:51 | the callback leaves the set |
| DirectoryBackup.InitValid | backup.js:26-42 | `init` establishes the invariant: busy iff a backup is in flight, busy only with a getter, a timer only when supported, and `_latestHash` equal to the metadata's hash |
| DirectoryBackup.LoadLocalValid | backup.js:26-32 | reading the local metadata establishes the invariant |
| DirectoryBackup.StatusKeepsValid | backup.js:357-369 | `_updateStatus` keeps the invariant |
| DirectoryBackup.RestoreKeepsValid | backup.js:164-186 | `_restoreHandle` keeps the invariant |
| DirectoryBackup.PerformBackupValid | backup.js:113-125 | the start of `performBackup` keeps the invariant |
| DirectoryBackup.ChooseDirectoryValid | backup.js:58-76 | `chooseDirectory` keeps the invariant |
| DirectoryBackup.ClearBackupDataValid | backup.js:78-93 | `clearBackupData` keeps the invariant |
| DirectoryBackup.TriggerManualBackupValid | backup.js:95-101 | `triggerManualBackup` keeps the invariant |
| DirectoryBackup.HandleStoreSaveValid | backup.js:103-111 | `handleStoreSave` keeps the invariant |
| DirectoryBackup.FireTimerValid | backup.js:108-110 | the firing timer keeps the invariant |
| DirectoryBackup.HydrateValid | backup.js:341-355 | `hydrateMetaFromDb` keeps the invariant |
| DirectoryBackup.SaveKeeps | backup.js:149-155 | saving prunes, records the hash and the time, and keeps `_latestHash` equal to the metadata's |
| DirectoryBackup.CompletePreservesValid | backup.js:156-161 | a completed backup keeps the invariant and clears `_busy`, whatever happened |
| DirectoryBackup.NoHandleStartsNothing | backup.js:114-117 | without a folder, a backup reports `no-handle` and starts nothing |
| DirectoryBackup.BusyIsNoOp | backup.js:122-124 | a busy engine returns and nothing changes |
| DirectoryBackup.CurrentWritesNothing | backup.js:136-141 | a hash equal to the last one reports `up-to-date`, writes nothing and keeps the metadata |
| DirectoryBackup.NoPermissionWritesNothing | backup.js:127-132 | without permission nothing is written and the status asks for it |
| DirectoryBackup.WriteSucceeds | backup.js:142-155 | after both writes, the latest file holds the payload, the metadata and `_latestHash` hold the new hash, the daily date is today, and the status is `success` |
| DirectoryBackup.WriteSpecFiles | backup.js:142-148 | the latest file holds the text, and only daily files change besides it |
| DirectoryBackup.WriteSpecRecord | backup.js:142-155 | the metadata records the backup and the status reports it |
| DirectoryBackup.PruneAfterWrites | backup.js:149 | pruning after the writes keeps the latest file and every entry that is not a daily file |
| DirectoryBackup.SameDayWritesNoDaily | backup.js:144-148 | when today's daily file was written already, no daily file is added or changed |
| DirectoryBackup.SameInputsAreCurrent | backup.js:133-141 | backing up the same state with the same timestamp again finds it current |
| DirectoryBackup.HandleStoreSaveEffects | backup.js:103-111 | nothing without a folder or support; otherwise one fresh timer |
| DirectoryBackup.ClearDuringBackupFails | backup.js:127-158 | a folder forgotten while a backup awaits its permission answer: the permission passes for the old folder, the first write throws, and the backup ends in `error` with nothing written or recorded |
| DirectoryBackup.ClearThenTimerReportsNoHandle | backup.js:78-111 | `clearBackupData` forgets the folder, the metadata and the hash but leaves the timer armed; the backup it fires reports `no-handle` |
| DirectoryBackup.ChooseDirectoryConnects | backup.js:62-67 | a chosen folder is connected, stored, reported `ready`, and the `initial-setup` backup starts |
| DirectoryBackup.ChooseDirectoryFailureKeepsFolder | backup.js:68-75 | a cancelled or failed pick keeps the folder that was connected |
| DirectoryBackup.Backup.constructor | backup.js:26-42 | `init` as `InitSpec`, establishing the invariant |
| DirectoryBackup.Backup.LoadLocal | backup.js:27-32 | subscribes the listener and loads the local metadata and its hash |
| DirectoryBackup.Backup.RestoreHandle | backup.js:164-186 | `_restoreHandle` as `RestoreHandleSpec` |
| DirectoryBackup.Backup.UpdateStatus | backup.js:357-369 | `_updateStatus` as `WithStatus` |
| DirectoryBackup.Backup.OnStatusChange | backup.js:44-50 | `onStatusChange` as `Subscribe` |
| DirectoryBackup.Backup.RemoveStatusListener | backup.js:51 | the function returned by `onStatusChange`, as `Unsubscribe` |
| DirectoryBackup.Backup.ChooseDirectory | backup.js:58-76 | `chooseDirectory` as `ChooseDirectorySpec` |
| DirectoryBackup.Backup.ClearBackupData | backup.js:78-93 | `clearBackupData` as `ClearBackupDataSpec` |
| DirectoryBackup.Backup.TriggerManualBackup | backup.js:95-101 | `triggerManualBackup` as `TriggerManualBackupSpec` |
| DirectoryBackup.Backup.HandleStoreSave | backup.js:103-111 | `handleStoreSave` as `HandleStoreSaveSpec` |
| DirectoryBackup.Backup.FireTimer | backup.js:108-110 | the timer callback starts a backup |
| DirectoryBackup.Backup.PerformBackup | backup.js:113-125 | `performBackup` up to `_busy = true`, as `PerformBackupSpec` |
| DirectoryBackup.Backup.CompleteBackup | backup.js:126-161 | the rest of `performBackup` and its `finally`, as `CompleteSpec` |
| DirectoryBackup.Backup.Attempt | backup.js:127-155 | the permission decision for the folder the backup started with, the payload, the duplicate test, then the writes |
| DirectoryBackup.Backup.WriteBackup | backup.js:142-155 | `error` when no folder is connected any more (`_writeFile` on a `null` handle), else the latest file, the daily file once per date, then saving |
| DirectoryBackup.Backup.SaveBackup | backup.js:149-155 | pruning, the new metadata and `success` |
| DirectoryBackup.Backup.SaveMeta | backup.js:283-301 | `_saveMeta`: the stored record when the store works, and the local copy |
| DirectoryBackup.Backup.HydrateMetaFromDb | backup.js:341-355 | `hydrateMetaFromDb` as `HydrateSpec` |
| DirectoryBackup.Backup.PruneDailyBackups | backup.js:233-250 | `_pruneDailyBackups` as `PruneSpec` |
| DirectoryBackup.PruneFiles | backup.js:233-250 | collecting, sorting and the removal loop compute `PruneSpec` |
| DirectoryBackup.CollectDailyNames | backup.js:234-239 | the daily names of the folder, each once |
| Migration.FixCount | archive/migrations/migrate-to-v2.js:33-34 | after the fix the counter is a number, and every other member is unchanged |
| Migration.FixAvatar | archive/migrations/migrate-to-v2.js:35 | after `v \|\| ''` the avatar is a string or a truthy value, and every other member is unchanged |
| Migration.FixPlayer | archive/migrations/migrate-to-v2.js:31-37 | a player object gets numeric counters and an avatar, and keeps its name |
| Migration.FixPlayerKeepsFixed | archive/migrations/migrate-to-v2.js:31-37 | a player already in shape is left alone |
| Migration.CountCoercion | archive/migrations/migrate-to-v2.js:33-34 | a number stays; anything else becomes `Number(v) \|\| 0`, and a falsy value becomes 0 |
| Migration.EnsurePlayer | archive/migrations/migrate-to-v2.js:28-29 | a missing player gets the default and the other members are unchanged |
| Migration.MigratePlayers | archive/migrations/migrate-to-v2.js:27-37 | the players value is truthy, and a truthy non-object is left as it is |
| Migration.MigratedPlayers | archive/migrations/migrate-to-v2.js:27-37 | when `players` is an object or missing, both players exist, and a player object has numeric counters |
| Migration.MigrateRounds | archive/migrations/migrate-to-v2.js:40-54 | `roundWinners` is truthy, and as an array it holds no strings and no falsy entries |
| Migration.MigrateHistory | archive/migrations/migrate-to-v2.js:58-62 | `history` becomes an array |
| Migration.MigrateSpec | archive/migrations/migrate-to-v2.js:20-68 | a non-object is returned unchanged, and an object stays an object |
| Migration.Migrate | archive/migrations/migrate-to-v2.js:20-68 | the in-place assignments compute `MigrateSpec` |
| Migration.MigrateFields | archive/migrations/migrate-to-v2.js:27-65 | the value each of the five writes leaves, `schemaVersion: '2.0.0'` included |
| Migration.MigratedShape | archive/migrations/migrate-to-v2.js:27-65 | the schema version is 2.0.0, the round is truthy, history is an array, and the rounds have no strings or falsy entries |
| Migration.MigrateIdempotent | archive/migrations/migrate-to-v2.js:20-68 | migrating a migrated value changes nothing |
| Migration.MigrateIfNeededSpec | archive/migrations/migrate-to-v2.js:70-98 | a migration stores the text of the migrated state, and that state is the migration of what the stored text parses to |
| Migration.NothingToMigrate | archive/migrations/migrate-to-v2.js:72-82 | `no-state` exactly without a stored text, `invalid-json` for a text that does not parse; these and `already-v2` write nothing |
| Migration.AlreadyV2 | archive/migrations/migrate-to-v2.js:81-82 | a save at 2.0.0 gives `already-v2` and no write |
| Migration.BackupWrites | archive/migrations/migrate-to-v2.js:7-13 | a successful backup stores the old text under the new key and names that key under the last-backup key |
| Migration.MigrationKeepsBackup | archive/migrations/migrate-to-v2.js:85-93 | after a migration, the state key holds the migrated text, the timestamped backup key holds the old text, and the last-backup key names it; there is no backup key exactly when one of the two backup writes failed |
| Migration.BackupThenWrite | archive/migrations/migrate-to-v2.js:85-91 | overwriting the state key after a successful backup keeps the backup and the last-backup key |
| Migration.SecondCallIsAlreadyV2 | archive/migrations/migrate-to-v2.js:81-91 | once an object is migrated, the next call reports `already-v2` and writes nothing |
| Migration.NonObjectsAreNeverStamped | archive/migrations/migrate-to-v2.js:22 | a save that is not an object is migrated and backed up again on every call |
| Migration.LocalStorage.SetItem | archive/migrations/migrate-to-v2.js:10 | `setItem` writes unless the key fails |
| Migration.LocalStorage.BackupRawState | archive/migrations/migrate-to-v2.js:7-18 | `backupRawState` as `BackupSpec` |
| Migration.LocalStorage.MigrateIfNeeded | archive/migrations/migrate-to-v2.js:70-98 | `migrateIfNeeded` as `MigrateIfNeededSpec` |
| Patterns.SkipSpaces | scripts/bump-version.js:32 | `\s*` stops at the first character that is not white space |
| Patterns.RunUntil | scripts/bump-version.js:32 | `[^'"]*` stops at the first quote |
| Patterns.CaptureAt | scripts/check-versions.js:27 | the captured group is a non-empty run without quotes, after the literal |
| Patterns.FirstMatch | scripts/bump-version.js:32-36 | the leftmost full match: it matches, and nothing matches before it |
| Patterns.CapturedText | scripts/check-versions.js:27-28 | `match(re)[1]` is non-empty and holds no quote |
| Patterns.CapturedTextMissing | scripts/check-versions.js:27-28 | no capture exactly when the pattern captures nowhere |
| Patterns.ReplaceFirstIdempotent | scripts/bump-version.js:36 | replacing the leftmost match with an assignment that matches again is idempotent |
| Patterns.ReplacedValue | scripts/bump-version.js:36 | `match` reads back the value `replace` wrote |
| BumpVersion.DigitRun | scripts/bump-version.js:10 | `\d*` stops at the first character that is not a digit |
| BumpVersion.VersionShape | scripts/bump-version.js:10 | an accepted version is three numerals joined by two dots |
| BumpVersion.NumeralsMakeVersion | scripts/bump-version.js:10 | any three numerals joined by dots are accepted |
| BumpVersion.ValidVersionParts | scripts/bump-version.js:10 | a version is accepted iff splitting it at the dots gives three non-empty runs of digits |
| BumpVersion.VersionCharacters | scripts/bump-version.js:10 | an accepted version is a non-empty run of digits and dots |
| BumpVersion.UpdateAppVersion | scripts/bump-version.js:31-37 | fails with the assignment error exactly when no assignment matches; otherwise the first one is replaced |
| BumpVersion.UpdateManifest | scripts/bump-version.js:39-45 | fails with the manifest error exactly when no version member matches; otherwise the first one is replaced |
| BumpVersion.AppVersionReadBack | scripts/bump-version.js:31-37 | the rewritten app script yields the new version to the pattern the audit uses |
| BumpVersion.UpdateAppVersionIdempotent | scripts/bump-version.js:31-37 | rewriting twice with the same version is rewriting once |
| BumpVersion.ManifestVersionReadBack | scripts/bump-version.js:39-45 | the rewritten manifest yields the new version |
| BumpVersion.UpdateManifestIdempotent | scripts/bump-version.js:39-45 | rewriting twice with the same version is rewriting once |
| BumpVersion.Entry | scripts/bump-version.js:54 | the entry is three lines: the heading with the date, the notes, and an empty line |
| BumpVersion.HeaderIndex | scripts/bump-version.js:52-53 | the first line starting with `## [`, or the end |
| BumpVersion.UpdateChangelog | scripts/bump-version.js:47-57 | the result always contains the version's heading |
| BumpVersion.UpdateChangelogIdempotent | scripts/bump-version.js:48-50 | a second insertion of the same version changes nothing |
| BumpVersion.ChangelogLines | scripts/bump-version.js:51-56 | exactly the three entry lines are inserted just before the first heading (or at the end), and every other line keeps its order |
| BumpVersion.ChangelogFirstHeading | scripts/bump-version.js:52-55 | after an insertion, the first heading is the new version's |
| BumpVersion.WriteApp | scripts/bump-version.js:60-66 | the app step creates and deletes no file, and exits with 0 or 1 |
| BumpVersion.WriteManifest | scripts/bump-version.js:68-69 | the manifest step creates and deletes no file, and exits with 0 or 1 |
| BumpVersion.WriteChangelog | scripts/bump-version.js:71-72 | fails with exit 1, changing nothing, exactly when the changelog is missing; otherwise it rewrites the changelog alone |
| BumpVersion.Bump | scripts/bump-version.js:59-76 | the script creates and deletes no file, and exits with 0 or 1 |
| BumpVersion.BumpSucceeds | scripts/bump-version.js:59-76 | success iff the version is valid, the three files exist and both patterns match |
| BumpVersion.BadVersionWritesNothing | scripts/bump-version.js:10-13 | a rejected version exits with 1, prints the usage and changes no file |
| BumpVersion.ManifestFailureKeepsAppWrite | scripts/bump-version.js:64-69 | the steps are not atomic: a manifest failure leaves the app script rewritten |
| BumpVersion.BumpFiles | scripts/bump-version.js:59-72 | a successful run rewrites each of the three files once, by its own step |
| BumpVersion.BumpOtherFiles | scripts/bump-version.js:59-72 | a successful run touches no other file |
| BumpVersion.BumpWritesVersion | scripts/bump-version.js:59-72 | after a successful run, each of the three files carries the new version |
| BumpVersion.BumpIdempotent | scripts/bump-version.js:59-76 | running twice with the same arguments is running once |
| CheckVersions.Selected | scripts/check-versions.js:21-25 | the selected text is truthy iff some candidate reads as a non-empty text |
| CheckVersions.SelectAppJs | scripts/check-versions.js:21-25 | the candidate loop computes `Selected` |
| CheckVersions.AppVersionFromFirstReadable | scripts/check-versions.js:22-29 | the app version comes from the first candidate that reads as a non-empty text |
| CheckVersions.AppVersionOf | scripts/check-versions.js:26-29 | the app version is `null` or a non-empty text |
| CheckVersions.ManifestVersionOf | scripts/check-versions.js:32-38 | the manifest version is `null` or truthy |
| CheckVersions.UnparsableManifest | scripts/check-versions.js:34-37 | a manifest that does not parse yields `null` |
| CheckVersions.FirstHeading | scripts/check-versions.js:43 | the leftmost line start where the heading pattern matches, or none |
| CheckVersions.ChangelogLatest | scripts/check-versions.js:41-45 | the latest version is `null` or a non-empty text without `]` |
| CheckVersions.Distinct | scripts/check-versions.js:55 | `Array.from(new Set(vs))` holds the same values, each once |
| CheckVersions.ExitCode | scripts/check-versions.js:56-67 | the audit exits with 0 or 2 |
| CheckVersions.CheckVersions | scripts/check-versions.js:18-68 | the script computes the audit and its exit status |
| CheckVersions.ConsistentIff | scripts/check-versions.js:54-68 | exit 0 iff all versions present agree, so three missing versions pass too; 2 otherwise |
| CheckVersions.MismatchFails | scripts/check-versions.js:59-67 | two different present versions make the audit exit with 2 |
| CheckVersions.ChangelogReadBack | scripts/check-versions.js:43-44 | after an insertion by the bump script, the audit reads the new version as the latest |
| CheckVersions.BumpKeepsPublicManifest | scripts/check-versions.js:14 | the bump script leaves the manifest the audit reads untouched |
| CheckVersions.BumpedAppVersion | scripts/check-versions.js:26-29 | after a successful bump, the audit reads the new version from the app script |
| CheckVersions.BumpedChangelog | scripts/check-versions.js:43-44 | after a bump that inserted a heading, the audit reads the new version from the changelog |
| CheckVersions.VerdictHangsOnManifest | scripts/check-versions.js:54-58 | when the app script and the changelog agree, the audit passes iff the manifest has no version or the same one |
| CheckVersions.BumpThenAudit | scripts/check-versions.js:54-68 | after a successful bump, the app script and the changelog read the new version, and the audit passes iff the public manifest has none or the same |

## Left out

- **Browser I/O.** DOM rendering, styles, animations, `alert`, avatar upload, the Blob
  download, the service worker and the update banner are not modelled. `confirm` answers are
  parameters.
- **Storage APIs.** IndexedDB, the File System Access API and `localStorage` are maps. Their
  own failures are boolean or set parameters. The rotation transaction of `AutoBackup` commits
  or fails as one step.
- **`JSON.parse`.** It is not implemented. The model takes what it makes of a text (`Text`) as
  given. `JSON.stringify` is modelled, for integers and strings only.
- **Numbers.** Numbers are integers: floating point, `NaN` and `Infinity` are not modelled.
  `Number()` of a text is modelled for the forms that give an integer: white space around it,
  the empty text (0), `0x`/`0o`/`0b` literals, an optional sign, decimals with a fraction and
  an exponent whose value is whole (`"5.0"`, `"1e3"`). An array goes through its joined text,
  so `[[5]]` is 5. A value that is not whole and `"Infinity"` give `None`, where JavaScript
  gives a fraction or `Infinity`. A magnitude beyond the exact integers of a double is kept
  exact, where JavaScript rounds it or makes it `Infinity`. The win
  percentage uses `Math.round` on the exact rational value.
- **SHA-256.** `crypto.subtle.digest` is an opaque deterministic function. A missing or
  throwing `crypto.subtle` is the fallback checksum, which is modelled in full.
- **Clock.** `Date.now()`, `toISOString()` and the UTC date are parameters.
- **Timers.** A timer is a pending field. Firing is an explicit step, so the debounce delays
  themselves are not modelled: `AUTO_DELAY_MS` is 5000 ms in `src/auto-backup.js` and 4000 ms
  in `backup.js`.
- **Interleaving.** The window in `AutoBackup.performBackup` between the busy test and
  `_busy = true`, across the `await` of `_hash`, is not modelled. Its duplicate test and entry
  are taken as one step.
- **Calls during a directory backup.** A call made while a directory backup awaits is seen
  either after the handle test of `_ensurePermission` and before the rest of the backup, or
  after the backup completes. A call that lands between two later `await`s, for example
  between the latest-file write and the daily-file write, is not modelled.
- **Error objects.** Error objects and console messages are left out. An error is its message
  or a marker.
- **Regular expressions.** `replace` is modelled for a replacement text without `$`
  substitution patterns. The script only passes a version of digits and dots, which has none.
- **Migration semantics.** `migrate` is modelled through the JSON value it writes back.
  A property set on an array is lost, as `JSON.stringify` loses it.
- Migration.MigratePlayers: the migration runs as module code (`src/main.js:2`), so in strict
  mode. There, setting `players.A` on a truthy primitive `players`
  (`archive/migrations/migrate-to-v2.js:28`), or `score` on a primitive player (line 33),
  throws a `TypeError`, and `migrateIfNeeded` returns `exception` after the backup was
  written (lines 85, 94-96). The model does not throw there: it writes the value back with
  those assignments lost, as sloppy-mode code would.
- **`migrateIfNeeded` catch-all.** A failing `setItem` is modelled: for the final write it
  ends in `exception`. Other exceptions that the outer `catch` turns into `exception` are not
  modelled, because in the model neither `getItem` nor `migrate` throws.
- **Command-line output.** The console output of the scripts is not modelled, apart from the
  usage text and the exit status.
- **GameState.LoadSpec**: a saved object whose `round` is not a number, whose `players` lacks a
  player or a player's `name`, `score`, `streak` or `avatar` of the right type, or whose
  `roundWinners` or `history` is not an array, ends in `Unrepresentable` with the game
  unchanged. The source assigns such values as they are, clears the undo stack and renders.
- **Extra saved keys.** Keys of a save other than `round`, `players`, `roundWinners`, `history`
  and `schemaVersion` are dropped by `load`, and so are extra keys of a saved player. The source
  copies them into `state`, and the next `save` writes them back.
- **Release script.** `scripts/release.js` is not part of this model. It spawns npm processes.
- **Rounds.PercentShares**: states only the range, the sum to 100 and the 50 default and
  ordering facts, not the exact percentage for each count.
- **Hashing.HexString**: states only the length and the alphabet of the rendering, not the
  digit for each byte.
- **Migration.MigrateSpec**: its own contract states only the shape of the result. The value of
  each field is stated by `Migration.MigrateFields`.
