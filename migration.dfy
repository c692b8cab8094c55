/**
 * The schema migration to version 2.0.0 (`archive/migrations/migrate-to-v2.js`).
 *
 * `migrate` rewrites the fields of a parsed save in place; it is modelled on the JSON value
 * the migrated object serialises to, which is what is written back. Properties assigned to an
 * array or to a primitive are not part of that JSON text, so such values come out as they went
 * in. `migrateIfNeeded` reads and writes `localStorage`, modelled as a map from keys to texts;
 * `JSON.parse` is a parameter, the clock is a parameter, and `failing` names the keys whose
 * `setItem` throws.
 */
module Migration {
  import opened Wrappers
  import opened Strings
  import opened Json
  import opened Rounds

  const STATE_KEY := "punchBuggy"
  const BACKUP_PREFIX := "punchBuggy_backup_"
  const LAST_BACKUP_KEY := "punchBuggy_last_backup"
  const SCHEMA_VERSION := "2.0.0"

  function DefaultPlayerJson(name: string): Json {
    JObj([("name", JStr(name)), ("score", JNum(0)), ("streak", JNum(0)), ("avatar", JStr(""))])
  }

  /** `if (typeof p[key] !== 'number') p[key] = Number(p[key]) || 0`. */
  function FixCount(p: Json, key: string): (r: Json)
    requires p.JObj?
    ensures r.JObj? && Get(r, key).Some? && Get(r, key).value.JNum?
    ensures forall other :: other != key ==> Get(r, other) == Get(p, other)
  {
    match Get(p, key)
    case Some(JNum(_)) => p
    case _ => Set(p, key, JNum(NumberOrZero(Get(p, key))))
  }

  /** `if (typeof p.avatar !== 'string') p.avatar = p.avatar || ''`: a truthy non-string stays. */
  function FixAvatar(p: Json): (r: Json)
    requires p.JObj?
    ensures r.JObj? && Get(r, "avatar").Some?
    ensures Get(r, "avatar").value.JStr? || Truthy(Get(r, "avatar").value)
    ensures forall other :: other != "avatar" ==> Get(r, other) == Get(p, other)
  {
    var v := Get(p, "avatar");
    if v.Some? && v.value.JStr? then p
    else Set(p, "avatar", if TruthyOpt(v) then v.value else JStr(""))
  }

  predicate CountsAreNumbers(p: Json) {
    && Get(p, "score").Some? && Get(p, "score").value.JNum?
    && Get(p, "streak").Some? && Get(p, "streak").value.JNum?
  }

  /** A player as `migrate` leaves it: numeric counters and an avatar that is a string or truthy. */
  predicate PlayerFixed(p: Json) {
    && CountsAreNumbers(p)
    && Get(p, "avatar").Some? && (Get(p, "avatar").value.JStr? || Truthy(Get(p, "avatar").value))
  }

  lemma FixedCounts(p: Json)
    requires p.JObj?
    ensures CountsAreNumbers(FixCount(FixCount(p, "score"), "streak"))
  {
    assert "score" != "streak";
  }

  lemma FixedPlayer(p: Json)
    requires p.JObj?
    ensures PlayerFixed(FixAvatar(FixCount(FixCount(p, "score"), "streak")))
  {
    FixedCounts(p);
    assert "score" != "avatar" && "streak" != "avatar";
  }

  lemma FixedName(p: Json)
    requires p.JObj?
    ensures Get(FixAvatar(FixCount(FixCount(p, "score"), "streak")), "name") == Get(p, "name")
  {
    assert |"name"| < |"score"| < |"streak"| == |"avatar"|;
    FixesKeep(p, "name");
  }

  /** The three fixes leave every other member as it was. */
  lemma FixesKeep(p: Json, k: string)
    requires p.JObj? && k != "score" && k != "streak" && k != "avatar"
    ensures Get(FixAvatar(FixCount(FixCount(p, "score"), "streak")), k) == Get(p, k)
  {
  }

  /** The body of the `forEach` for one player, `p` being truthy. */
  function FixPlayer(p: Json): (r: Json)
    ensures !p.JObj? ==> r == p
    ensures p.JObj? ==> r.JObj? && PlayerFixed(r) && Get(r, "name") == Get(p, "name")
  {
    if p.JObj? then
      FixedPlayer(p);
      FixedName(p);
      FixAvatar(FixCount(FixCount(p, "score"), "streak"))
    else p
  }

  /** A player already in shape is left alone. */
  lemma FixPlayerKeepsFixed(q: Json)
    requires q.JObj? && PlayerFixed(q)
    ensures FixPlayer(q) == q
  {
    assert FixCount(q, "score") == q;
    assert FixCount(q, "streak") == q;
    var v := Get(q, "avatar");
    if !v.value.JStr? {
      SetSame(q, "avatar", v.value);
    }
  }

  /** `parsed.players.k = parsed.players.k || { defaults }`. */
  function EnsurePlayer(players: Json, key: string, name: string): (r: Json)
    requires players.JObj?
    ensures r.JObj? && TruthyOpt(Get(r, key))
    ensures forall other :: other != key ==> Get(r, other) == Get(players, other)
  {
    if TruthyOpt(Get(players, key)) then players else Set(players, key, DefaultPlayerJson(name))
  }

  /** Lines 27 to 37: both players exist and their counters are numbers. */
  function MigratePlayers(pl: Option<Json>): (r: Json)
    ensures Truthy(r)
    ensures TruthyOpt(pl) && !pl.value.JObj? ==> r == pl.value
  {
    var players := if TruthyOpt(pl) then pl.value else JObj([]);
    if !players.JObj? then players
    else
      var withA := EnsurePlayer(players, "A", "Player A");
      var withB := EnsurePlayer(withA, "B", "Player B");
      var fixedA := Set(withB, "A", FixPlayer(Get(withB, "A").value));
      Set(fixedA, "B", FixPlayer(Get(fixedA, "B").value))
  }

  /** Lines 40 to 54: an array loses its falsy entries and its strings become records; otherwise `|| []`. */
  function MigrateRounds(rw: Option<Json>): (r: Json)
    ensures Truthy(r)
    ensures r.JArr? ==> forall k :: 0 <= k < |r.items| ==> Truthy(r.items[k]) && !r.items[k].JStr?
  {
    if rw.Some? && rw.value.JArr? then JArr(LeaderboardRounds(rw.value.items))
    else if TruthyOpt(rw) then rw.value
    else JArr([])
  }

  /** Lines 58 to 62: an array stays, any other truthy value is wrapped, a falsy one becomes `[]`. */
  function MigrateHistory(h: Option<Json>): (r: Json)
    ensures r.JArr?
  {
    if h.Some? && h.value.JArr? then h.value
    else if TruthyOpt(h) then JArr([h.value])
    else JArr([])
  }

  /** `migrate(parsed)`, as the JSON value it writes back. */
  function MigrateSpec(parsed: Json): (r: Json)
    ensures !parsed.JObj? ==> r == parsed
    ensures parsed.JObj? ==> r.JObj?
  {
    if !parsed.JObj? then parsed
    else
      var p1 := Set(parsed, "players", MigratePlayers(Get(parsed, "players")));
      var p2 := Set(p1, "roundWinners", MigrateRounds(Get(p1, "roundWinners")));
      var rd := Get(p2, "round");
      var p3 := Set(p2, "round", if TruthyOpt(rd) then rd.value else JNum(1));
      var p4 := Set(p3, "history", MigrateHistory(Get(p3, "history")));
      Set(p4, "schemaVersion", JStr(SCHEMA_VERSION))
  }

  /** `migrate`, one assignment at a time. */
  method Migrate(parsed: Json) returns (next: Json)
    ensures next == MigrateSpec(parsed)
  {
    if !parsed.JObj? {
      return parsed;
    }
    next := parsed;
    var players := if TruthyOpt(Get(next, "players")) then Get(next, "players").value else JObj([]);
    if players.JObj? {
      players := EnsurePlayer(players, "A", "Player A");
      players := EnsurePlayer(players, "B", "Player B");
      players := Set(players, "A", FixPlayer(Get(players, "A").value));
      players := Set(players, "B", FixPlayer(Get(players, "B").value));
    }
    next := Set(next, "players", players);
    next := Set(next, "roundWinners", MigrateRounds(Get(next, "roundWinners")));
    var rd := Get(next, "round");
    next := Set(next, "round", if TruthyOpt(rd) then rd.value else JNum(1));
    next := Set(next, "history", MigrateHistory(Get(next, "history")));
    next := Set(next, "schemaVersion", JStr(SCHEMA_VERSION));
  }

  /** The five writes of `migrate`, whatever the values: each read sees the original field, each write survives. */
  lemma FieldWrites(parsed: Json, v1: Json, v2: Json, v3: Json, v4: Json, v5: Json)
    requires parsed.JObj?
    ensures var p1 := Set(parsed, "players", v1);
      var p2 := Set(p1, "roundWinners", v2);
      var p3 := Set(p2, "round", v3);
      var p4 := Set(p3, "history", v4);
      var r := Set(p4, "schemaVersion", v5);
      && Get(p1, "roundWinners") == Get(parsed, "roundWinners")
      && Get(p2, "round") == Get(parsed, "round")
      && Get(p3, "history") == Get(parsed, "history")
      && Get(r, "players") == Some(v1)
      && Get(r, "roundWinners") == Some(v2)
      && Get(r, "round") == Some(v3)
      && Get(r, "history") == Some(v4)
      && Get(r, "schemaVersion") == Some(v5)
  {
    MigratedKeysDistinct();
    FiveWrites(parsed, "players", v1, "roundWinners", v2, "round", v3, "history", v4, "schemaVersion", v5);
  }

  /** Five writes to five different keys: each read before a write sees the original, each write survives. */
  lemma FiveWrites(j: Json, k1: string, v1: Json, k2: string, v2: Json, k3: string, v3: Json,
                   k4: string, v4: Json, k5: string, v5: Json)
    requires j.JObj?
    requires k1 != k2 && k1 != k3 && k1 != k4 && k1 != k5 && k2 != k3 && k2 != k4 && k2 != k5
    requires k3 != k4 && k3 != k5 && k4 != k5
    ensures var p1 := Set(j, k1, v1);
      var p2 := Set(p1, k2, v2);
      var p3 := Set(p2, k3, v3);
      var p4 := Set(p3, k4, v4);
      var r := Set(p4, k5, v5);
      && Get(p1, k2) == Get(j, k2)
      && Get(p2, k3) == Get(j, k3)
      && Get(p3, k4) == Get(j, k4)
      && Get(r, k1) == Some(v1)
      && Get(r, k2) == Some(v2)
      && Get(r, k3) == Some(v3)
      && Get(r, k4) == Some(v4)
      && Get(r, k5) == Some(v5)
  {
  }

  /** The five fields `migrate` writes have five different names. */
  lemma MigratedKeysDistinct()
    ensures "players" != "roundWinners" && "players" != "round" && "players" != "history" && "players" != "schemaVersion"
    ensures "roundWinners" != "round" && "roundWinners" != "history" && "roundWinners" != "schemaVersion"
    ensures "round" != "history" && "round" != "schemaVersion" && "history" != "schemaVersion"
  {
    assert "players"[0] != "history"[0];
  }

  /** The value `migrate` leaves in each field it writes. */
  lemma MigrateFields(parsed: Json)
    requires parsed.JObj?
    ensures var r := MigrateSpec(parsed);
      && r.JObj?
      && Get(r, "players") == Some(MigratePlayers(Get(parsed, "players")))
      && Get(r, "roundWinners") == Some(MigrateRounds(Get(parsed, "roundWinners")))
      && Get(r, "round") == Some(if TruthyOpt(Get(parsed, "round")) then Get(parsed, "round").value else JNum(1))
      && Get(r, "history") == Some(MigrateHistory(Get(parsed, "history")))
      && Get(r, "schemaVersion") == Some(JStr(SCHEMA_VERSION))
  {
    var p1 := Set(parsed, "players", MigratePlayers(Get(parsed, "players")));
    var p2 := Set(p1, "roundWinners", MigrateRounds(Get(p1, "roundWinners")));
    var rd := Get(p2, "round");
    var p3 := Set(p2, "round", if TruthyOpt(rd) then rd.value else JNum(1));
    FieldWrites(parsed, MigratePlayers(Get(parsed, "players")), MigrateRounds(Get(p1, "roundWinners")),
                if TruthyOpt(rd) then rd.value else JNum(1), MigrateHistory(Get(p3, "history")), JStr(SCHEMA_VERSION));
  }

  /**
   * After `migrate` an object carries `schemaVersion: '2.0.0'`, a truthy `round`, an array
   * `history`, truthy `roundWinners` with no strings and no falsy entries when it is an array,
   * and truthy `players`.
   */
  lemma MigratedShape(parsed: Json)
    requires parsed.JObj?
    ensures var r := MigrateSpec(parsed);
      && Get(r, "schemaVersion") == Some(JStr(SCHEMA_VERSION))
      && TruthyOpt(Get(r, "round"))
      && Get(r, "history").Some? && Get(r, "history").value.JArr?
      && TruthyOpt(Get(r, "roundWinners"))
      && (Get(r, "roundWinners").value.JArr? ==>
            var items := Get(r, "roundWinners").value.items;
            forall k :: 0 <= k < |items| ==> Truthy(items[k]) && !items[k].JStr?)
      && TruthyOpt(Get(r, "players"))
  {
    MigrateFields(parsed);
  }

  /** Both players exist once `players` is an object, and a player object has numeric counters. */
  lemma MigratedPlayers(pl: Option<Json>)
    requires !TruthyOpt(pl) || pl.value.JObj?
    ensures var r := MigratePlayers(pl);
      && r.JObj? && TruthyOpt(Get(r, "A")) && TruthyOpt(Get(r, "B"))
      && (Get(r, "A").value.JObj? ==> CountsAreNumbers(Get(r, "A").value))
      && (Get(r, "B").value.JObj? ==> CountsAreNumbers(Get(r, "B").value))
  {
    var players := if TruthyOpt(pl) then pl.value else JObj([]);
    var withA := EnsurePlayer(players, "A", "Player A");
    var withB := EnsurePlayer(withA, "B", "Player B");
    assert "A" != "B";
    FixBoth(withB, "A", "B");
  }

  /** Fixing two different players that both exist leaves both truthy, with numeric counters. */
  lemma FixBoth(players: Json, a: string, b: string)
    requires players.JObj? && a != b && TruthyOpt(Get(players, a)) && TruthyOpt(Get(players, b))
    ensures var fixedA := Set(players, a, FixPlayer(Get(players, a).value));
      var r := Set(fixedA, b, FixPlayer(Get(fixedA, b).value));
      && r.JObj? && TruthyOpt(Get(r, a)) && TruthyOpt(Get(r, b))
      && (Get(r, a).value.JObj? ==> CountsAreNumbers(Get(r, a).value))
      && (Get(r, b).value.JObj? ==> CountsAreNumbers(Get(r, b).value))
  {
    var fixedA := Set(players, a, FixPlayer(Get(players, a).value));
    assert Get(fixedA, b) == Get(players, b);
  }

  /** A missing or falsy score or streak becomes 0; one that is not a number becomes `Number(v) || 0`. */
  lemma CountCoercion(p: Json, key: string)
    requires p.JObj?
    ensures Get(p, key).Some? && Get(p, key).value.JNum? ==> FixCount(p, key) == p
    ensures !(Get(p, key).Some? && Get(p, key).value.JNum?) ==> Get(FixCount(p, key), key) == Some(JNum(NumberOrZero(Get(p, key))))
    ensures !TruthyOpt(Get(p, key)) ==> Get(FixCount(p, key), key) == Some(JNum(0))
  {
  }

  /** Migrating a migrated value changes nothing. */
  lemma MigrateIdempotent(parsed: Json)
    ensures MigrateSpec(MigrateSpec(parsed)) == MigrateSpec(parsed)
  {
    if parsed.JObj? {
      var r := MigrateSpec(parsed);
      MigrateFields(parsed);
      MigratedShape(parsed);
      MigratePlayersIdempotent(Get(parsed, "players"));
      SetSame(r, "players", Get(r, "players").value);
      MigrateRoundsIdempotent(Get(r, "roundWinners"));
      SetSame(r, "roundWinners", Get(r, "roundWinners").value);
      SetSame(r, "round", Get(r, "round").value);
      SetSame(r, "history", Get(r, "history").value);
      SetSame(r, "schemaVersion", JStr(SCHEMA_VERSION));
      MigrateFields(r);
    }
  }

  lemma MigrateRoundsIdempotent(rw: Option<Json>)
    requires TruthyOpt(rw)
    requires rw.value.JArr? ==> forall k :: 0 <= k < |rw.value.items| ==> Truthy(rw.value.items[k]) && !rw.value.items[k].JStr?
    ensures MigrateRounds(rw) == rw.value
  {
    if rw.value.JArr? {
      LeaderboardLegacy(rw.value.items);
      assert LeaderboardRounds(rw.value.items) == rw.value.items;
    }
  }

  lemma FixPlayerIdempotent(p: Json)
    ensures FixPlayer(FixPlayer(p)) == FixPlayer(p)
  {
    if p.JObj? {
      FixPlayerKeepsFixed(FixPlayer(p));
    }
  }

  lemma MigratePlayersIdempotent(pl: Option<Json>)
    ensures MigratePlayers(Some(MigratePlayers(pl))) == MigratePlayers(pl)
  {
    var r := MigratePlayers(pl);
    if r.JObj? {
      MigratedPlayers(pl);
      var a, b := Get(r, "A").value, Get(r, "B").value;
      PlayerIsFixed(pl, "A");
      PlayerIsFixed(pl, "B");
      assert EnsurePlayer(r, "A", "Player A") == r;
      assert EnsurePlayer(r, "B", "Player B") == r;
      SetSame(r, "A", a);
      SetSame(r, "B", b);
    }
  }

  /** A player of a migrated `players` object is its own fix. */
  lemma PlayerIsFixed(pl: Option<Json>, key: string)
    requires key == "A" || key == "B"
    requires MigratePlayers(pl).JObj?
    ensures Get(MigratePlayers(pl), key).Some?
    ensures FixPlayer(Get(MigratePlayers(pl), key).value) == Get(MigratePlayers(pl), key).value
  {
    var players := if TruthyOpt(pl) then pl.value else JObj([]);
    var withA := EnsurePlayer(players, "A", "Player A");
    var withB := EnsurePlayer(withA, "B", "Player B");
    var pa := FixPlayer(Get(withB, "A").value);
    var fixedA := Set(withB, "A", pa);
    var pb := FixPlayer(Get(fixedA, "B").value);
    assert MigratePlayers(pl) == Set(fixedA, "B", pb);
    FixPlayerIdempotent(Get(withB, "A").value);
    FixPlayerIdempotent(Get(fixedA, "B").value);
    assert "A" != "B";
  }

  /** What `migrateIfNeeded` returns. */
  datatype MigrationResult =
    | NotMigrated(reason: string)
    | Migrated(backupKey: Option<string>, nextState: Json)

  /** `backupRawState(raw)`: the backup and then the last-backup key naming it; a throwing write ends it with `null`. */
  function BackupSpec(items: map<string, string>, raw: string, now: int, failing: set<string>)
    : (map<string, string>, Option<string>)
  {
    var key := BACKUP_PREFIX + IntToString(now);
    if key in failing then (items, None)
    else if LAST_BACKUP_KEY in failing then (items[key := raw], None)
    else (items[key := raw][LAST_BACKUP_KEY := key], Some(key))
  }

  /** `migrateIfNeeded()`; `parse` is `JSON.parse`. */
  function MigrateIfNeededSpec(items: map<string, string>, parse: string -> Text, now: int, failing: set<string>)
    : (r: (map<string, string>, MigrationResult))
    ensures r.1.Migrated? ==> STATE_KEY in r.0 && r.0[STATE_KEY] == Serialize(r.1.nextState)
    ensures r.1.Migrated? ==>
      (STATE_KEY in items && parse(items[STATE_KEY]).JsonText? && r.1.nextState == MigrateSpec(parse(items[STATE_KEY]).value))
  {
    if STATE_KEY !in items || items[STATE_KEY] == "" then (items, NotMigrated("no-state"))
    else
      var raw := items[STATE_KEY];
      match parse(raw)
      case OtherText(_) => (items, NotMigrated("invalid-json"))
      case JsonText(parsed) =>
        if Get(parsed, "schemaVersion") == Some(JStr(SCHEMA_VERSION)) then (items, NotMigrated("already-v2"))
        else
          var (items1, key) := BackupSpec(items, raw, now, failing);
          var next := MigrateSpec(parsed);
          if STATE_KEY in failing then (items1, NotMigrated("exception"))
          else (items1[STATE_KEY := Serialize(next)], Migrated(key, next))
  }

  /** Without a saved state, with a text that is not JSON, or with a save already at 2.0.0, nothing is written. */
  lemma NothingToMigrate(items: map<string, string>, parse: string -> Text, now: int, failing: set<string>)
    ensures var (items', r) := MigrateIfNeededSpec(items, parse, now, failing);
      (r == NotMigrated("no-state") || r == NotMigrated("invalid-json") || r == NotMigrated("already-v2")) ==> items' == items
    ensures (STATE_KEY !in items || items[STATE_KEY] == "") <==>
              MigrateIfNeededSpec(items, parse, now, failing).1 == NotMigrated("no-state")
    ensures STATE_KEY in items && items[STATE_KEY] != "" && parse(items[STATE_KEY]).OtherText? ==>
              MigrateIfNeededSpec(items, parse, now, failing).1 == NotMigrated("invalid-json")
  {
  }

  lemma BackupKeyIsNotState(now: int)
    ensures BACKUP_PREFIX + IntToString(now) != STATE_KEY
    ensures BACKUP_PREFIX + IntToString(now) != LAST_BACKUP_KEY
  {
    var key := BACKUP_PREFIX + IntToString(now);
    assert key[11] == 'b' != 'l' == LAST_BACKUP_KEY[11] by {
      assert key[..|BACKUP_PREFIX|] == BACKUP_PREFIX;
    }
    assert |key| > |STATE_KEY|;
  }

  /**
   * A migration keeps the text it replaced: when the backup succeeds, the old text is under the
   * backup key, the last-backup key names that key, and the migrated state is written over the old one.
   */
  lemma MigrationKeepsBackup(items: map<string, string>, parse: string -> Text, now: int, failing: set<string>)
    requires MigrateIfNeededSpec(items, parse, now, failing).1.Migrated?
    ensures var (items', r) := MigrateIfNeededSpec(items, parse, now, failing);
      && items'[STATE_KEY] == Serialize(r.nextState)
      && (r.backupKey.Some? ==>
            && r.backupKey.value == BACKUP_PREFIX + IntToString(now)
            && r.backupKey.value in items' && items'[r.backupKey.value] == items[STATE_KEY]
            && LAST_BACKUP_KEY in items' && items'[LAST_BACKUP_KEY] == r.backupKey.value)
      && (r.backupKey.None? <==> (BACKUP_PREFIX + IntToString(now) in failing || LAST_BACKUP_KEY in failing))
  {
    BackupKeyIsNotState(now);
    var res := MigrateIfNeededSpec(items, parse, now, failing);
    var b := BackupSpec(items, items[STATE_KEY], now, failing);
    assert res.0 == b.0[STATE_KEY := Serialize(res.1.nextState)] && res.1.backupKey == b.1;
    if b.1.Some? {
      BackupThenWrite(items, items[STATE_KEY], now, failing, Serialize(res.1.nextState));
    }
  }

  /** Writing the state after a successful backup leaves the backup and the last-backup key in place. */
  lemma BackupThenWrite(items: map<string, string>, raw: string, now: int, failing: set<string>, text: string)
    requires BackupSpec(items, raw, now, failing).1.Some?
    ensures var (items', key) := BackupSpec(items, raw, now, failing);
      && key.value == BACKUP_PREFIX + IntToString(now)
      && key.value in items'[STATE_KEY := text] && items'[STATE_KEY := text][key.value] == raw
      && LAST_BACKUP_KEY in items'[STATE_KEY := text] && items'[STATE_KEY := text][LAST_BACKUP_KEY] == key.value
  {
    BackupWrites(items, raw, now, failing);
    BackupKeyIsNotState(now);
    assert LAST_BACKUP_KEY != STATE_KEY;
  }

  /** A backup that succeeds leaves the old text under the new key and the last-backup key naming it. */
  lemma BackupWrites(items: map<string, string>, raw: string, now: int, failing: set<string>)
    requires BackupSpec(items, raw, now, failing).1.Some?
    ensures var (items', key) := BackupSpec(items, raw, now, failing);
      && key.value == BACKUP_PREFIX + IntToString(now)
      && key.value in items' && items'[key.value] == raw
      && LAST_BACKUP_KEY in items' && items'[LAST_BACKUP_KEY] == key.value
  {
    BackupKeyIsNotState(now);
  }

  lemma AlreadyV2(items: map<string, string>, parse: string -> Text, now: int, failing: set<string>)
    requires STATE_KEY in items && items[STATE_KEY] != ""
    requires parse(items[STATE_KEY]).JsonText?
    requires Get(parse(items[STATE_KEY]).value, "schemaVersion") == Some(JStr(SCHEMA_VERSION))
    ensures MigrateIfNeededSpec(items, parse, now, failing) == (items, NotMigrated("already-v2"))
  {
  }

  /**
   * Once an object has been migrated, the next call finds it at 2.0.0 and writes nothing, given
   * that `JSON.parse` reads back what was written.
   */
  lemma SecondCallIsAlreadyV2(items: map<string, string>, parse: string -> Text, now: int, failing: set<string>,
                              now2: int, failing2: set<string>)
    requires MigrateIfNeededSpec(items, parse, now, failing).1.Migrated?
    requires MigrateIfNeededSpec(items, parse, now, failing).1.nextState.JObj?
    requires var next := MigrateIfNeededSpec(items, parse, now, failing).1.nextState;
      parse(Serialize(next)) == JsonText(next)
    ensures var items' := MigrateIfNeededSpec(items, parse, now, failing).0;
      MigrateIfNeededSpec(items', parse, now2, failing2) == (items', NotMigrated("already-v2"))
  {
    var res := MigrateIfNeededSpec(items, parse, now, failing);
    var next := res.1.nextState;
    assert Get(next, "schemaVersion") == Some(JStr(SCHEMA_VERSION)) by {
      MigrateFields(parse(items[STATE_KEY]).value);
    }
    assert |Serialize(next)| > 0 by {
      SerializeObject(next.fields);
    }
    AlreadyV2(res.0, parse, now2, failing2);
  }

  /**
   * A save that is not an object (a number, a string, an array) never receives the version
   * stamp, so every call migrates it again and writes one more backup.
   */
  lemma NonObjectsAreNeverStamped(items: map<string, string>, parse: string -> Text, now: int, failing: set<string>)
    requires STATE_KEY in items && items[STATE_KEY] != ""
    requires parse(items[STATE_KEY]).JsonText? && !parse(items[STATE_KEY]).value.JObj?
    requires STATE_KEY !in failing
    ensures MigrateIfNeededSpec(items, parse, now, failing).1 ==
              Migrated(BackupSpec(items, items[STATE_KEY], now, failing).1, parse(items[STATE_KEY]).value)
  {
  }

  /** `localStorage`, as far as the migration uses it. */
  class LocalStorage {
    var items: map<string, string>

    constructor (items0: map<string, string>)
      ensures items == items0
    {
      items := items0;
    }

    method SetItem(key: string, value: string, failing: set<string>) returns (ok: bool)
      modifies this
      ensures ok <==> key !in failing
      ensures items == if ok then old(items)[key := value] else old(items)
    {
      if key in failing {
        return false;
      }
      items := items[key := value];
      ok := true;
    }

    method BackupRawState(raw: string, now: int, failing: set<string>) returns (key: Option<string>)
      modifies this
      ensures (items, key) == BackupSpec(old(items), raw, now, failing)
    {
      var k := BACKUP_PREFIX + IntToString(now);
      var ok := SetItem(k, raw, failing);
      if !ok {
        return None;
      }
      ok := SetItem(LAST_BACKUP_KEY, k, failing);
      if !ok {
        return None;
      }
      key := Some(k);
    }

    method MigrateIfNeeded(parse: string -> Text, now: int, failing: set<string>) returns (r: MigrationResult)
      modifies this
      ensures (items, r) == MigrateIfNeededSpec(old(items), parse, now, failing)
    {
      if STATE_KEY !in items || items[STATE_KEY] == "" {
        return NotMigrated("no-state");
      }
      var raw := items[STATE_KEY];
      var text := parse(raw);
      if text.OtherText? {
        return NotMigrated("invalid-json");
      }
      var parsed := text.value;
      if Get(parsed, "schemaVersion") == Some(JStr(SCHEMA_VERSION)) {
        return NotMigrated("already-v2");
      }
      var backupKey := BackupRawState(raw, now, failing);
      var next := Migrate(parsed);
      var ok := SetItem(STATE_KEY, Serialize(next), failing);
      if !ok {
        return NotMigrated("exception");
      }
      r := Migrated(backupKey, next);
    }
  }
}
