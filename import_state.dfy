/**
 * Importing a game from a file (`normalizeImportedState` and the import handler of
 * `src/main.js`) and the JSON the export button writes.
 *
 * The normaliser accepts the application's own exports, exports wrapped as
 * `{app, createdAt, version, data}`, and an older shape with `players.X.current` and
 * `rounds.{current, history}`; whatever it is given, it builds both players, a round number
 * of at least 1, the finished rounds and the log.
 */
module ImportState {
  import opened Wrappers
  import opened Strings
  import opened Json
  import opened Rounds
  import opened GameState

  /** A name as the normaliser leaves it: not empty, and neither starting nor ending with white space. */
  predicate NameShown(name: string) {
    |name| > 0 && !IsJsSpace(name[0]) && !IsJsSpace(name[|name| - 1])
  }

  /** `parsed.data` when it is an object or an array, otherwise `parsed` itself. */
  function ImportSource(parsed: Json): Json {
    var data := Get(parsed, "data");
    if data.Some? && IsObjectType(data.value) then data.value else parsed
  }

  /** The trimmed name when it is a string with something besides white space, otherwise the default. */
  function ImportName(p: Json, default: string): (name: string)
    requires NameShown(default)
    ensures NameShown(name)
  {
    match Get(p, "name")
    case Some(JStr(s)) =>
      if Trim(s) != "" then Trim(s) else default
    case _ => default
  }

  function ImportAvatar(p: Json): string {
    match Get(p, "avatar")
    case Some(JStr(s)) => s
    case _ => ""
  }

  /** One player: `source.players[k] || {}`, with scores from `current` when that is an object. */
  function ImportPlayer(p0: Option<Json>, default: string): Player
    requires NameShown(default)
  {
    var p := if TruthyOpt(p0) then p0.value else JObj([]);
    var cur := Get(p, "current");
    var from := if TruthyOpt(cur) && IsObjectType(cur.value) then cur.value else p;
    Player(ImportName(p, default), NumberOrZero(Get(from, "score")), NumberOrZero(Get(from, "streak")), ImportAvatar(p))
  }

  lemma DefaultNamesShown()
    ensures NameShown(DEFAULT_NAME_A) && NameShown(DEFAULT_NAME_B)
  {
  }

  function ImportPlayers(source: Json): (Player, Player) {
    DefaultNamesShown();
    match Get(source, "players")
    case Some(ps) =>
      if IsObjectType(ps) then (ImportPlayer(Get(ps, "A"), DEFAULT_NAME_A), ImportPlayer(Get(ps, "B"), DEFAULT_NAME_B))
      else (DefaultPlayer(A), DefaultPlayer(B))
    case None => (DefaultPlayer(A), DefaultPlayer(B))
  }

  /** The top-level `round` when it is a finite number, else `rounds.current.number`, else 1; never below 1. */
  function ImportRound(source: Json): int {
    var top := ToNumber(Get(source, "round"));
    if top.Some? then Max(1, top.value)
    else
      var rounds := Get(source, "rounds");
      var cur := if TruthyOpt(rounds) then Get(rounds.value, "current") else None;
      var num := if TruthyOpt(cur) then ToNumber(Get(cur.value, "number")) else None;
      if num.Some? then Max(1, num.value) else 1
  }

  /** `r.scores.A` (or `.B`) when it is a finite number, otherwise 0. */
  function HistoryScore(r: Json, key: string): int {
    var scores := Get(r, "scores");
    if Truthy(r) && TruthyOpt(scores) then ToNumber(Get(scores.value, key)).GetOr(0) else 0
  }

  /** An entry of `rounds.history`: its winner, or `'T'` when it has none, and its two scores. */
  function HistoryRecord(r: Json): Json {
    var w := Get(r, "winner");
    RecordOf(if Truthy(r) && TruthyOpt(w) then w.value else JStr("T"), HistoryScore(r, "A"), HistoryScore(r, "B"))
  }

  /** The rounds: from `rounds.history` when that is an array, else from `roundWinners` when that is one. */
  function ImportedRounds(source: Json): (r: seq<Json>)
    ensures forall k :: 0 <= k < |r| ==> Truthy(r[k]) && !r[k].JStr?
  {
    var rounds := Get(source, "rounds");
    var hist := if TruthyOpt(rounds) then Get(rounds.value, "history") else None;
    if hist.Some? && hist.value.JArr? then
      seq(|hist.value.items|, k requires 0 <= k < |hist.value.items| => HistoryRecord(hist.value.items[k]))
    else
      match Get(source, "roundWinners")
      case Some(JArr(items)) => ImportRounds(items)
      case _ => []
  }

  /** A log entry: a string as it is, else its truthy `message`, else its JSON text. */
  function HistoryEntry(h: Json): Json {
    if h.JStr? then h
    else if Truthy(h) && TruthyOpt(Get(h, "message")) then Get(h, "message").value
    else JStr(Serialize(h))
  }

  function ImportedHistory(source: Json): seq<Json> {
    match Get(source, "history")
    case Some(JArr(items)) => seq(|items|, k requires 0 <= k < |items| => HistoryEntry(items[k]))
    case _ => []
  }

  /** `source.schemaVersion || parsed.schemaVersion`, kept only when truthy. */
  function ImportedSchema(parsed: Json, source: Json): Option<Json> {
    var sv := if TruthyOpt(Get(source, "schemaVersion")) then Get(source, "schemaVersion") else Get(parsed, "schemaVersion");
    if TruthyOpt(sv) then sv else None
  }

  /**
   * `normalizeImportedState(parsed)`; `None` is `{error: 'invalid'}`. Every accepted value gives
   * both players with a shown name, a round of at least 1, and rounds that are all objects.
   */
  function NormalizeImported(parsed: Json): (r: Option<Persisted>)
    ensures r.None? <==> !IsObjectType(parsed)
    ensures r.Some? ==> r.value.round >= 1 && NameShown(r.value.a.name) && NameShown(r.value.b.name)
    ensures r.Some? ==> forall k :: 0 <= k < |r.value.roundWinners| ==>
              Truthy(r.value.roundWinners[k]) && !r.value.roundWinners[k].JStr?
    ensures r.Some? && r.value.schemaVersion.Some? ==> Truthy(r.value.schemaVersion.value)
  {
    if !IsObjectType(parsed) then None
    else
      var source := ImportSource(parsed);
      var players := ImportPlayers(source);
      Some(Persisted(ImportRound(source), players.0, players.1, ImportedRounds(source),
                     ImportedHistory(source), ImportedSchema(parsed, source)))
  }

  /** The export button's `JSON.stringify(state)`: the undo stack is exported too. */
  function ExportJson(g: Game): Json {
    var stack := seq(|g.undoStack|, k requires 0 <= k < |g.undoStack| => PersistedJson(g.undoStack[k]));
    JObj(StateFields(g.state) + [("undoStack", JArr(stack))] + SchemaFields(g.state))
  }

  /** The states an import gives back unchanged. */
  predicate Importable(s: Persisted) {
    && s.round >= 1
    && NameShown(s.a.name) && NameShown(s.b.name)
    && (forall k :: 0 <= k < |s.roundWinners| ==> Truthy(s.roundWinners[k]) && !s.roundWinners[k].JStr?)
    && (forall k :: 0 <= k < |s.history| ==> s.history[k].JStr?)
    && (s.schemaVersion.Some? ==> Truthy(s.schemaVersion.value))
  }

  /** How the import handler ends. */
  datatype ImportOutcome =
    | NoFile        // no file was chosen
    | ImportFailed  // `JSON.parse` threw: "Failed to import: ..."
    | ImportInvalid // "Invalid file: could not parse import"
    | ImportDeclined
    | ImportDone    // "Import successful"

  /**
   * The import file input's `onchange`: the file's text as `JSON.parse` sees it, and the answer
   * to the confirmation. An accepted import is assigned over the state; the undo stack stays.
   */
  function ImportSpec(g: Game, file: Option<Text>, confirmed: bool): (Game, ImportOutcome) {
    match file
    case None => (g, NoFile)
    case Some(OtherText(_)) => (g, ImportFailed)
    case Some(JsonText(parsed)) =>
      match NormalizeImported(parsed)
      case None => (g, ImportInvalid)
      case Some(n) =>
        if !confirmed then (g, ImportDeclined)
        else (Rendered(g.(state := Assign(g.state, n))), ImportDone)
  }

  /** An import changes the game only when it ends in success; the undo stack is never touched. */
  lemma ImportOnlyOnSuccess(g: Game, file: Option<Text>, confirmed: bool)
    ensures ImportSpec(g, file, confirmed).1 != ImportDone ==> ImportSpec(g, file, confirmed).0 == g
    ensures ImportSpec(g, file, confirmed).0.undoStack == g.undoStack
    ensures ImportSpec(g, file, confirmed).1 == ImportDone <==>
              confirmed && file.Some? && file.value.JsonText? && IsObjectType(file.value.value)
  {
  }

  /** An import always leaves a state with shown names and a round of at least 1. */
  lemma ImportedStateIsSound(g: Game, file: Option<Text>, confirmed: bool)
    requires ImportSpec(g, file, confirmed).1 == ImportDone
    ensures var s := ImportSpec(g, file, confirmed).0.state;
      s.round >= 1 && NameShown(s.a.name) && NameShown(s.b.name)
  {
  }

  lemma ExportKeys(g: Game)
    ensures Keys(ExportJson(g).fields) ==
      ["round", "players", "roundWinners", "history", "undoStack"] +
      (if g.state.schemaVersion.Some? then ["schemaVersion"] else [])
  {
  }

  lemma PlayerJsonFields(p: Player)
    ensures var j := PlayerJson(p);
      && Get(j, "name") == Some(JStr(p.name)) && Get(j, "score") == Some(JNum(p.score))
      && Get(j, "streak") == Some(JNum(p.streak)) && Get(j, "avatar") == Some(JStr(p.avatar))
      && Get(j, "current") == None
  {
    PlayerFields(p);
    PlayerHasNoCurrent(p);
  }

  lemma PlayerHasNoCurrent(p: Player)
    ensures Get(PlayerJson(p), "current") == None
  {
    var f := PlayerJson(p).fields;
    var ks := Keys(f);
    assert forall k :: 0 <= k < |ks| ==> |ks[k]| < |"current"|;
    LookupMissing(f, "current");
  }

  lemma PlayerBack(p: Player, default: string)
    requires NameShown(default) && NameShown(p.name)
    ensures ImportPlayer(Some(PlayerJson(p)), default) == p
  {
    PlayerJsonFields(p);
    TrimUntrimmed(p.name);
  }

  /** Where the normaliser finds each of its inputs in an export. */
  lemma ExportLookups(g: Game)
    ensures var j, s := ExportJson(g), g.state;
      && Get(j, "data") == None && Get(j, "rounds") == None
      && Get(j, "round") == Some(JNum(s.round))
      && Get(j, "players") == Some(PlayersJson(s))
      && Get(j, "roundWinners") == Some(JArr(s.roundWinners))
      && Get(j, "history") == Some(JArr(s.history))
  {
    ExportMissing(g, "data");
    ExportMissing(g, "rounds");
    ExportField(g, 0, "round", JNum(g.state.round));
    ExportField(g, 1, "players", PlayersJson(g.state));
    ExportField(g, 2, "roundWinners", JArr(g.state.roundWinners));
    ExportField(g, 3, "history", JArr(g.state.history));
  }

  lemma ExportMissing(g: Game, key: string)
    requires key == "data" || key == "rounds"
    ensures Get(ExportJson(g), key) == None
  {
    ExportKeys(g);
    LookupMissing(ExportJson(g).fields, key);
  }

  lemma ExportField(g: Game, i: nat, key: string, v: Json)
    requires i < 4 && StateFields(g.state)[i] == (key, v)
    ensures Get(ExportJson(g), key) == Some(v)
  {
    var f := ExportJson(g).fields;
    var st := StateFields(g.state);
    assert f[i] == st[i];
    assert forall k :: 0 <= k < i ==> f[k].0 == st[k].0 != st[i].0 by {
      assert |st[1].0| == |st[3].0| && st[1].0[0] != st[3].0[0];
    }
    LookupFirst(f, i);
  }

  /**
   * Importing an exported game gives back its round, players, rounds, log and schema version,
   * whenever the state is one an import can produce with strings for log entries.
   */
  lemma ExportThenImport(g: Game)
    requires Importable(g.state)
    ensures NormalizeImported(ExportJson(g)) == Some(g.state)
  {
    var j := ExportJson(g);
    ExportParts(g);
    SchemaBack(g);
    assert NormalizeImported(j) == Some(Persisted(ImportRound(j), ImportPlayers(j).0, ImportPlayers(j).1,
      ImportedRounds(j), ImportedHistory(j), ImportedSchema(j, j)));
  }

  /**
   * Importing the export of a game into any session, and confirming, brings back that game's
   * round, players, rounds and log; the session keeps its own undo stack.
   */
  lemma ImportOwnExport(g: Game, session: Game)
    requires Importable(g.state)
    ensures var (g', outcome) := ImportSpec(session, Some(JsonText(ExportJson(g))), true);
      && outcome == ImportDone
      && g'.state.round == g.state.round && g'.state.a == g.state.a && g'.state.b == g.state.b
      && g'.state.roundWinners == g.state.roundWinners && g'.state.history == g.state.history
      && g'.undoStack == session.undoStack
  {
    ExportThenImport(g);
  }

  lemma ExportParts(g: Game)
    requires Importable(g.state)
    ensures var j, s := ExportJson(g), g.state;
      && ImportSource(j) == j && ImportRound(j) == s.round && ImportPlayers(j) == (s.a, s.b)
      && ImportedRounds(j) == s.roundWinners && ImportedHistory(j) == s.history
  {
    ExportHead(g);
    ExportLists(g);
  }

  lemma ExportHead(g: Game)
    requires Importable(g.state)
    ensures var j, s := ExportJson(g), g.state;
      ImportSource(j) == j && ImportRound(j) == s.round && ImportPlayers(j) == (s.a, s.b)
  {
    ExportLookups(g);
    PlayersFromJson(g.state);
  }

  lemma ExportLists(g: Game)
    requires Importable(g.state)
    ensures var j, s := ExportJson(g), g.state;
      ImportedRounds(j) == s.roundWinners && ImportedHistory(j) == s.history
  {
    ExportLookups(g);
    ImportRoundsKeepsRecords(g.state.roundWinners);
    HistoryKeepsStrings(g.state.history);
  }

  lemma HistoryKeepsStrings(h: seq<Json>)
    requires forall k :: 0 <= k < |h| ==> h[k].JStr?
    ensures seq(|h|, k requires 0 <= k < |h| => HistoryEntry(h[k])) == h
  {
  }

  lemma PlayersFromJson(s: Persisted)
    requires NameShown(s.a.name) && NameShown(s.b.name)
    ensures ImportPlayer(Get(PlayersJson(s), "A"), DEFAULT_NAME_A) == s.a
    ensures ImportPlayer(Get(PlayersJson(s), "B"), DEFAULT_NAME_B) == s.b
  {
    DefaultNamesShown();
    PlayersLookup(s);
    PlayerBack(s.a, DEFAULT_NAME_A);
    PlayerBack(s.b, DEFAULT_NAME_B);
  }

  lemma SchemaBack(g: Game)
    requires g.state.schemaVersion.Some? ==> Truthy(g.state.schemaVersion.value)
    ensures var j := ExportJson(g); ImportedSchema(j, j) == g.state.schemaVersion
  {
    var f := ExportJson(g).fields;
    ExportKeys(g);
    if g.state.schemaVersion.Some? {
      LookupAt(f[..5], "schemaVersion", g.state.schemaVersion.value, []);
      assert f[..5] + [("schemaVersion", g.state.schemaVersion.value)] + [] == f;
    } else {
      LookupMissing(f, "schemaVersion");
    }
  }

  /** The import handler, acting on the game's `state`. */
  method ImportFile(game: GameState, file: Option<Text>, confirmed: bool) returns (outcome: ImportOutcome)
    modifies game
    ensures (game.Model(), outcome) == ImportSpec(old(game.Model()), file, confirmed)
  {
    if file.None? {
      return NoFile;
    }
    if file.value.OtherText? {
      return ImportFailed;
    }
    var normalized := NormalizeImported(file.value.value);
    if normalized.None? {
      return ImportInvalid;
    }
    if !confirmed {
      return ImportDeclined;
    }
    game.SetCurrent(Assign(game.Current(), normalized.value));
    game.Render();
    outcome := ImportDone;
  }
}
