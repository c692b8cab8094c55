/**
 * The game state of `src/main.js`: two players with scores and streaks, the round number,
 * the log, the finished rounds and a bounded undo stack.
 *
 * Each handler is a specification function from one `Game` to the next, and the class
 * `GameState` carries out the same handler step by step on its fields. `render` ends every
 * handler that changes something and saves the state without its undo stack; that saved copy
 * is the `saved` field (what `localStorage` holds under `punchBuggy`).
 */
module GameState {
  import opened Wrappers
  import opened Strings
  import opened Json
  import opened Rounds

  /** `pushUndoState` keeps at most this many snapshots. */
  const UNDO_LIMIT: nat := 50

  const DEFAULT_NAME_A := "Player A"
  const DEFAULT_NAME_B := "Player B"

  datatype Side = A | B

  datatype Player = Player(name: string, score: int, streak: int, avatar: string)

  function DefaultPlayer(side: Side): Player {
    Player(if side == A then DEFAULT_NAME_A else DEFAULT_NAME_B, 0, 0, "")
  }

  /**
   * `state` without `undoStack`: what `save` persists and what `pushUndoState` copies.
   * `schemaVersion` is present only once a migrated save, an import or an undo brought it in.
   */
  datatype Persisted = Persisted(round: int, a: Player, b: Player, roundWinners: seq<Json>,
                                 history: seq<Json>, schemaVersion: Option<Json>)
  {
    function PlayerOf(side: Side): Player {
      if side == A then a else b
    }

    function WithPlayer(side: Side, p: Player): Persisted {
      if side == A then this.(a := p) else this.(b := p)
    }

    function Log(msg: string): Persisted {
      this.(history := history + [JStr(msg)])
    }
  }

  /** The whole game: the state, its undo stack and the saved copy. */
  datatype Game = Game(state: Persisted, undoStack: seq<Persisted>, saved: Option<Persisted>)

  const INITIAL := Persisted(1, DefaultPlayer(A), DefaultPlayer(B), [], [], None)

  /** The stack never holds more than `UNDO_LIMIT` snapshots. */
  predicate GameValid(g: Game) {
    |g.undoStack| <= UNDO_LIMIT
  }

  function Max(x: int, y: int): int {
    if x >= y then x else y
  }

  /** `Object.assign(state, src)`: every key of `src` replaces the state's, and `schemaVersion` only when `src` has one. */
  function Assign(cur: Persisted, src: Persisted): Persisted {
    src.(schemaVersion := if src.schemaVersion.Some? then src.schemaVersion else cur.schemaVersion)
  }

  /** `render()`: the state is saved, without its undo stack. */
  function Rendered(g: Game): Game {
    g.(saved := Some(g.state))
  }

  function Other(side: Side): Side {
    if side == A then B else A
  }

  /** `pushUndoState`: push a copy of the state; drop the oldest snapshot when there are more than 50. */
  function PushUndoSpec(g: Game): Game {
    var stack := g.undoStack + [g.state];
    g.(undoStack := if |stack| > UNDO_LIMIT then stack[1..] else stack)
  }

  function ScoreMessage(name: string, d: int): string {
    if d > 0 then name + " spotted a bug! +1" else name + " correction: -1"
  }

  /** `score(p, d)`. */
  function ScoreSpec(g: Game, side: Side, d: int): Game {
    var g1 := PushUndoSpec(g);
    var s := g1.state;
    var p := s.PlayerOf(side);
    var o := s.PlayerOf(Other(side));
    var p1 := p.(score := Max(0, p.score + d), streak := if d > 0 then p.streak + 1 else 0);
    var o1 := if d > 0 then o.(streak := 0) else o;
    var s1 := s.WithPlayer(side, p1).WithPlayer(Other(side), o1);
    Rendered(g1.(state := s1.Log(ScoreMessage(p.name, d))))
  }

  /** `undo()`: nothing on an empty stack; otherwise pop the newest snapshot and assign it to the state. */
  function UndoSpec(g: Game): Game {
    if |g.undoStack| == 0 then g
    else
      var prev := g.undoStack[|g.undoStack| - 1];
      Rendered(Game(Assign(g.state, prev), g.undoStack[..|g.undoStack| - 1], g.saved))
  }

  /** `A` if A has more points, `B` if B has more, `T` on equal points. */
  function Winner(a: int, b: int): (w: string)
    ensures (w == "A" <==> a > b) && (w == "B" <==> b > a) && (w == "T" <==> a == b)
  {
    if a > b then "A" else if b > a then "B" else "T"
  }

  const HANDSHAKE := "\U{1F91D}"
  const TROPHY := "\U{1F3C6}"
  const FLAG := "\U{1F3C1}"

  function RoundMessage(s: Persisted, w: string): string {
    var a, b, n := s.a.score, s.b.score, IntToString(s.round);
    if w == "T" then HANDSHAKE + " Round " + n + " tied " + IntToString(a) + "-" + IntToString(b)
    else if w == "A" then TROPHY + " " + s.a.name + " won Round " + n + " " + IntToString(a) + "-" + IntToString(b)
    else TROPHY + " " + s.b.name + " won Round " + n + " " + IntToString(b) + "-" + IntToString(a)
  }

  /** `recordRoundWinner()`: append `{winner, scoreA, scoreB}` and log the result. */
  function RecordRoundWinnerSpec(g: Game): Game {
    var s := g.state;
    var w := Winner(s.a.score, s.b.score);
    var s1 := s.(roundWinners := s.roundWinners + [RoundRecord(w, s.a.score, s.b.score)]);
    Rendered(g.(state := s1.Log(RoundMessage(s, w))))
  }

  function Cleared(p: Player): Player {
    p.(score := 0, streak := 0)
  }

  /** `nextRound()`: record the round, advance the round number, clear scores and streaks. */
  function NextRoundSpec(g: Game): Game {
    var g1 := RecordRoundWinnerSpec(g);
    var s := g1.state;
    var s1 := s.(round := s.round + 1, a := Cleared(s.a), b := Cleared(s.b));
    Rendered(g1.(state := s1.Log(FLAG + " Round " + IntToString(s.round + 1) + " started!")))
  }

  /** `reset()`, where `confirmed` is the answer to its `confirm` dialog. */
  function ResetSpec(g: Game, confirmed: bool): Game {
    if !confirmed then g
    else
      var s := g.state;
      Rendered(g.(state := s.(round := 1, a := Cleared(s.a), b := Cleared(s.b), history := [], roundWinners := [])))
  }

  /** The "clear board" button: forget the finished rounds once confirmed. */
  function ClearBoardSpec(g: Game, confirmed: bool): Game {
    if !confirmed then g else Rendered(g.(state := g.state.(roundWinners := [])))
  }

  /** The name inputs' `onchange`. */
  function RenameSpec(g: Game, side: Side, name: string): Game {
    var s := g.state;
    Rendered(g.(state := s.WithPlayer(side, s.PlayerOf(side).(name := name))))
  }

  /**
   * `clearAllAppData()`: default players, round 1, empty log and rounds; then the saved copy
   * is removed, unless `localStorage.removeItem` throws (`removeFails`), which is only logged.
   */
  function ClearAllAppDataSpec(g: Game, removeFails: bool): Game {
    var s := g.state.(round := 1, a := DefaultPlayer(A), b := DefaultPlayer(B), history := [], roundWinners := []);
    var g1 := Rendered(g.(state := s));
    if removeFails then g1 else g1.(saved := None)
  }

  /** The JSON of a player. */
  function PlayerJson(p: Player): Json {
    JObj([("name", JStr(p.name)), ("score", JNum(p.score)), ("streak", JNum(p.streak)), ("avatar", JStr(p.avatar))])
  }

  function PlayersJson(s: Persisted): Json {
    JObj([("A", PlayerJson(s.a)), ("B", PlayerJson(s.b))])
  }

  /** The keys of `state` that come before `undoStack`, in the order of the `state` literal. */
  function StateFields(s: Persisted): seq<(string, Json)> {
    [("round", JNum(s.round)), ("players", PlayersJson(s)), ("roundWinners", JArr(s.roundWinners)),
     ("history", JArr(s.history))]
  }

  /** `schemaVersion` comes last: it is added to `state` after the literal's keys. */
  function SchemaFields(s: Persisted): seq<(string, Json)> {
    if s.schemaVersion.Some? then [("schemaVersion", s.schemaVersion.value)] else []
  }

  /** The object `save` writes: the state without its undo stack. */
  function PersistedJson(s: Persisted): Json {
    JObj(StateFields(s) + SchemaFields(s))
  }

  /** The text `save` stores under `punchBuggy`: `JSON.stringify` of that object. */
  function SavedText(s: Persisted): string {
    Serialize(PersistedJson(s))
  }

  /** How `load()` ends. */
  datatype LoadOutcome =
    | Loaded          // the saved keys, if any, were assigned and the state rendered
    | LoadThrew       // `JSON.parse` threw, or the saved value is `null` and reading a key of it threw
    | Unrepresentable // a saved key holds a value the typed state of this model cannot hold

  /** A saved player with its four fields, each of the type the state gives it. */
  function SavedPlayer(j: Json): Option<Player> {
    match (Get(j, "name"), Get(j, "score"), Get(j, "streak"), Get(j, "avatar"))
    case (Some(JStr(name)), Some(JNum(score)), Some(JNum(streak)), Some(JStr(avatar))) =>
      Some(Player(name, score, streak, avatar))
    case _ => None
  }

  /** A saved `players` object with both players. */
  function SavedPlayers(j: Json): Option<(Player, Player)> {
    match (Get(j, "A"), Get(j, "B"))
    case (Some(a), Some(b)) =>
      if SavedPlayer(a).Some? && SavedPlayer(b).Some? then Some((SavedPlayer(a).value, SavedPlayer(b).value))
      else None
    case _ => None
  }

  /** Every modelled key the saved value carries has the shape the state gives that key. */
  predicate Representable(parsed: Json) {
    && (Get(parsed, "round").Some? ==> Get(parsed, "round").value.JNum?)
    && (Get(parsed, "players").Some? ==> SavedPlayers(Get(parsed, "players").value).Some?)
    && (Get(parsed, "roundWinners").Some? ==> Get(parsed, "roundWinners").value.JArr?)
    && (Get(parsed, "history").Some? ==> Get(parsed, "history").value.JArr?)
  }

  /**
   * `Object.assign(state, parsed)` once the legacy rounds are mapped: a key the saved value
   * carries replaces the state's, a key it lacks keeps the state's. A value that is not an
   * object carries none of the keys.
   */
  function AssignSaved(cur: Persisted, parsed: Json): Persisted
    requires Representable(parsed)
  {
    var round, players := Get(parsed, "round"), Get(parsed, "players");
    var rounds, history := Get(parsed, "roundWinners"), Get(parsed, "history");
    var schema := Get(parsed, "schemaVersion");
    Persisted(if round.Some? then round.value.n else cur.round,
              if players.Some? then SavedPlayers(players.value).value.0 else cur.a,
              if players.Some? then SavedPlayers(players.value).value.1 else cur.b,
              if rounds.Some? then LoadRounds(rounds.value.items) else cur.roundWinners,
              if history.Some? then history.value.items else cur.history,
              if schema.Some? then schema else cur.schemaVersion)
  }

  /**
   * `load()`: `stored` is what `localStorage` holds under `punchBuggy` (`None` when nothing),
   * and `parse` is `JSON.parse`. An empty or missing save assigns nothing. A text that does not
   * parse, or that parses to `null`, throws before the undo stack is cleared, so nothing changes.
   * Otherwise the saved keys are assigned, the undo stack starts empty and the state is rendered.
   */
  function LoadSpec(g: Game, stored: Option<string>, parse: string -> Text): (Game, LoadOutcome) {
    if stored.None? || stored.value == "" then (Rendered(Game(g.state, [], g.saved)), Loaded)
    else
      match parse(stored.value)
      case OtherText(_) => (g, LoadThrew)
      case JsonText(parsed) =>
        if parsed.JNull? then (g, LoadThrew)
        else if !Representable(parsed) then (g, Unrepresentable)
        else (Rendered(Game(AssignSaved(g.state, parsed), [], g.saved)), Loaded)
  }

  /** No handler lets the undo stack grow past its bound. */
  lemma {:induction false} HandlersPreserveValid(g: Game, side: Side, d: int, confirmed: bool, name: string,
                                                 removeFails: bool, stored: Option<string>,
                                                 parse: string -> Text)
    requires GameValid(g)
    ensures GameValid(PushUndoSpec(g)) && GameValid(ScoreSpec(g, side, d)) && GameValid(UndoSpec(g))
    ensures GameValid(RecordRoundWinnerSpec(g)) && GameValid(NextRoundSpec(g))
    ensures GameValid(ResetSpec(g, confirmed)) && GameValid(ClearBoardSpec(g, confirmed))
    ensures GameValid(RenameSpec(g, side, name)) && GameValid(ClearAllAppDataSpec(g, removeFails))
    ensures GameValid(LoadSpec(g, stored, parse).0)
  {
    PushUndoBounded(g);
    LoadOutcomes(g, stored, parse);
  }

  /**
   * `pushUndoState` keeps the newest 50 snapshots, in order, with the state as it was as the
   * newest; the oldest is the one dropped.
   */
  lemma PushUndoBounded(g: Game)
    requires GameValid(g)
    ensures var g' := PushUndoSpec(g);
      && g'.undoStack == KeepLast(g.undoStack + [g.state], UNDO_LIMIT)
      && |g'.undoStack| <= UNDO_LIMIT
      && g'.undoStack[|g'.undoStack| - 1] == g.state
      && (|g.undoStack| < UNDO_LIMIT ==> g'.undoStack[..|g.undoStack|] == g.undoStack)
      && (|g.undoStack| == UNDO_LIMIT ==> g'.undoStack[..UNDO_LIMIT - 1] == g.undoStack[1..])
  {
    var stack := g.undoStack + [g.state];
    if |stack| > UNDO_LIMIT {
      assert stack[1..][..UNDO_LIMIT - 1] == g.undoStack[1..];
    } else {
      assert stack[..|g.undoStack|] == g.undoStack;
    }
  }

  /**
   * `score(p, d)`: the score becomes `max(0, score + d)`; a point adds one to the scorer's streak
   * and ends the other player's, a correction ends the scorer's own; names, avatars, the round
   * and the finished rounds stay; exactly one line is logged; the result is saved.
   */
  lemma ScoreEffects(g: Game, side: Side, d: int)
    ensures var s, s' := g.state, ScoreSpec(g, side, d).state;
      var p, p', o, o' := s.PlayerOf(side), s'.PlayerOf(side), s.PlayerOf(Other(side)), s'.PlayerOf(Other(side));
      && p'.score == Max(0, p.score + d) && p'.score >= 0 && p'.score >= p.score + d
      && o'.score == o.score
      && (d > 0 ==> p'.streak == p.streak + 1 && o'.streak == 0)
      && (d <= 0 ==> p'.streak == 0 && o'.streak == o.streak)
      && p'.name == p.name && p'.avatar == p.avatar && o'.name == o.name && o'.avatar == o.avatar
      && s'.round == s.round && s'.roundWinners == s.roundWinners && s'.schemaVersion == s.schemaVersion
      && s'.history == s.history + [JStr(ScoreMessage(p.name, d))]
      && ScoreSpec(g, side, d).saved == Some(s')
  {
  }

  /** `undo` on an empty stack changes nothing. */
  lemma UndoEmptyIsNoOp(g: Game)
    requires |g.undoStack| == 0
    ensures UndoSpec(g) == g
  {
  }

  /**
   * `score` followed by `undo` gives back the round, both players, the log and the finished
   * rounds as they were, and the saved copy holds them again; the stack loses its oldest
   * snapshot if the push overflowed it.
   */
  lemma ScoreThenUndo(g: Game, side: Side, d: int)
    requires GameValid(g)
    ensures var g' := UndoSpec(ScoreSpec(g, side, d));
      && g'.state == g.state
      && g'.saved == Some(g.state)
      && g'.undoStack == KeepLast(g.undoStack, UNDO_LIMIT - 1)
  {
    PushUndoBounded(g);
    var pushed := PushUndoSpec(g).undoStack;
    var stack := g.undoStack + [g.state];
    assert pushed[..|pushed| - 1] == KeepLast(g.undoStack, UNDO_LIMIT - 1) by {
      if |stack| > UNDO_LIMIT {
        assert pushed == stack[1..];
        assert pushed[..|pushed| - 1] == g.undoStack[1..];
      } else {
        assert pushed[..|pushed| - 1] == g.undoStack;
      }
    }
  }

  /**
   * `recordRoundWinner`: exactly one record is appended, with the current scores and the
   * winner `A` iff A has more points, `B` iff B has more, `T` iff they are level; the
   * leaderboard credits that player (or the ties) with exactly one more round.
   */
  lemma RecordRoundWinnerEffects(g: Game)
    ensures var s, s' := g.state, RecordRoundWinnerSpec(g).state;
      var w := Winner(s.a.score, s.b.score);
      && s'.roundWinners == s.roundWinners + [RoundRecord(w, s.a.score, s.b.score)]
      && (w == "A" <==> s.a.score > s.b.score) && (w == "B" <==> s.b.score > s.a.score)
      && (w == "T" <==> s.a.score == s.b.score)
      && |s'.history| == |s.history| + 1
      && s'.round == s.round && s'.a == s.a && s'.b == s.b
  {
  }

  /** After a round is recorded, the leaderboard's counter for the round's winner grows by one and the others stay. */
  lemma RecordedRoundIsTallied(g: Game)
    ensures var s := g.state;
      var before, after := TallyOf(s.roundWinners), TallyOf(RecordRoundWinnerSpec(g).state.roundWinners);
      && after.winsA == before.winsA + (if s.a.score > s.b.score then 1 else 0)
      && after.winsB == before.winsB + (if s.b.score > s.a.score then 1 else 0)
      && after.ties == before.ties + (if s.a.score == s.b.score then 1 else 0)
  {
    var s := g.state;
    TallyAppendRecord(s.roundWinners, Winner(s.a.score, s.b.score), s.a.score, s.b.score);
  }

  /**
   * `nextRound`: one record appended, the round number up by exactly one, every score and
   * streak zero, names and avatars kept, two lines logged; the undo stack is untouched.
   */
  lemma NextRoundEffects(g: Game)
    ensures var s, s' := g.state, NextRoundSpec(g).state;
      && s'.round == s.round + 1
      && s'.roundWinners == s.roundWinners + [RoundRecord(Winner(s.a.score, s.b.score), s.a.score, s.b.score)]
      && s'.a == Player(s.a.name, 0, 0, s.a.avatar) && s'.b == Player(s.b.name, 0, 0, s.b.avatar)
      && |s'.history| == |s.history| + 2
      && NextRoundSpec(g).undoStack == g.undoStack
      && NextRoundSpec(g).saved == Some(s')
  {
  }

  /**
   * `reset`, once confirmed: round 1, scores and streaks zero, no log and no rounds, names and
   * avatars kept; declined, nothing changes.
   */
  lemma ResetEffects(g: Game, confirmed: bool)
    ensures !confirmed ==> ResetSpec(g, confirmed) == g
    ensures confirmed ==> var s, s' := g.state, ResetSpec(g, confirmed).state;
      && s' == Persisted(1, Player(s.a.name, 0, 0, s.a.avatar), Player(s.b.name, 0, 0, s.b.avatar), [], [], s.schemaVersion)
      && ResetSpec(g, confirmed).undoStack == g.undoStack
  {
  }

  /**
   * `clearAllAppData` gives the state a fresh game would have (apart from a `schemaVersion`
   * brought in earlier) and leaves nothing saved unless the removal failed.
   */
  lemma ClearAllAppDataEffects(g: Game, removeFails: bool)
    ensures var g' := ClearAllAppDataSpec(g, removeFails);
      && g'.state == INITIAL.(schemaVersion := g.state.schemaVersion)
      && (g'.saved.None? <==> !removeFails)
      && g'.undoStack == g.undoStack
  {
  }

  /**
   * Loading what `save` wrote gives back every saved key when the rounds hold no legacy
   * strings; `schemaVersion`, which `save` writes only when the state has one, is otherwise
   * kept as it was. The undo stack, which is never saved, starts empty. `parse` reads back what
   * `JSON.stringify` wrote.
   */
  lemma SaveThenLoad(g: Game, s: Persisted, parse: string -> Text)
    requires forall k :: 0 <= k < |s.roundWinners| ==> !s.roundWinners[k].JStr?
    requires parse(SavedText(s)) == JsonText(PersistedJson(s))
    ensures LoadSpec(g, Some(SavedText(s)), parse) == (Rendered(Game(Assign(g.state, s), [], g.saved)), Loaded)
  {
    SavedTextNotEmpty(s);
    AssignSavedBack(g.state, s);
  }

  lemma SavedTextNotEmpty(s: Persisted)
    ensures SavedText(s) != ""
  {
    assert SavedText(s)[0] == '{';
  }

  /** Assigning what `save` wrote is assigning the saved state itself. */
  lemma AssignSavedBack(cur: Persisted, s: Persisted)
    requires forall k :: 0 <= k < |s.roundWinners| ==> !s.roundWinners[k].JStr?
    ensures Representable(PersistedJson(s)) && AssignSaved(cur, PersistedJson(s)) == Assign(cur, s)
  {
    SavedLookups(s);
    SavedPlayersBack(s);
    assert LoadRounds(s.roundWinners) == s.roundWinners;
  }

  /**
   * `load` throws exactly when there is a non-empty save that does not parse or parses to
   * `null`, and then changes nothing; whenever it completes, the undo stack is empty and the
   * state it ends with is saved again.
   */
  lemma LoadOutcomes(g: Game, stored: Option<string>, parse: string -> Text)
    ensures var (g', outcome) := LoadSpec(g, stored, parse);
      && (outcome == LoadThrew <==>
            stored.Some? && stored.value != "" &&
            (parse(stored.value).OtherText? || parse(stored.value) == JsonText(JNull)))
      && (outcome != Loaded ==> g' == g)
      && (outcome == Loaded ==> g'.undoStack == [] && g'.saved == Some(g'.state))
  {
  }

  /**
   * A partial save: each key the parsed save lacks keeps the state's value and each key it
   * carries replaces it, the rounds once their legacy strings are mapped. A save that is not an
   * object (a number, a string, a boolean, an array) carries none of the keys.
   */
  lemma LoadAssignsCarriedKeys(g: Game, text: string, parse: string -> Text)
    requires text != "" && parse(text).JsonText? && !parse(text).value.JNull?
    requires Representable(parse(text).value)
    ensures var (g', outcome) := LoadSpec(g, Some(text), parse);
      var parsed, s, s' := parse(text).value, g.state, g'.state;
      && outcome == Loaded
      && (Get(parsed, "round").None? ==> s'.round == s.round)
      && (Get(parsed, "round").Some? ==> Get(parsed, "round") == Some(JNum(s'.round)))
      && (Get(parsed, "players").None? ==> s'.a == s.a && s'.b == s.b)
      && (Get(parsed, "players").Some? ==> SavedPlayers(Get(parsed, "players").value) == Some((s'.a, s'.b)))
      && (Get(parsed, "roundWinners").None? ==> s'.roundWinners == s.roundWinners)
      && (Get(parsed, "roundWinners").Some? ==>
            s'.roundWinners == LoadRounds(Get(parsed, "roundWinners").value.items))
      && (Get(parsed, "history").None? ==> s'.history == s.history)
      && (Get(parsed, "history").Some? ==> Get(parsed, "history") == Some(JArr(s'.history)))
      && (Get(parsed, "schemaVersion").None? ==> s'.schemaVersion == s.schemaVersion)
      && (Get(parsed, "schemaVersion").Some? ==> s'.schemaVersion == Get(parsed, "schemaVersion"))
      && (!parsed.JObj? ==> s' == s)
  {
  }

  /** The keys of a player object are distinct, so each field is found under its key. */
  lemma PlayerKeyAt(p: Player, i: nat)
    requires i < 4
    ensures var f := PlayerJson(p).fields; Lookup(f, f[i].0) == Some(f[i].1)
  {
    var f := PlayerJson(p).fields;
    assert forall k :: 0 <= k < i ==> f[k].0 != f[i].0 by {
      assert f[2].0[0] != f[3].0[0];
    }
    LookupFirst(f, i);
  }

  lemma PlayerFields(p: Player)
    ensures var j := PlayerJson(p);
      && Get(j, "name") == Some(JStr(p.name)) && Get(j, "score") == Some(JNum(p.score))
      && Get(j, "streak") == Some(JNum(p.streak)) && Get(j, "avatar") == Some(JStr(p.avatar))
  {
    PlayerKeyAt(p, 0);
    PlayerKeyAt(p, 1);
    PlayerKeyAt(p, 2);
    PlayerKeyAt(p, 3);
  }

  /** Each player is found under its side's key. */
  lemma PlayersLookup(s: Persisted)
    ensures Get(PlayersJson(s), "A") == Some(PlayerJson(s.a))
    ensures Get(PlayersJson(s), "B") == Some(PlayerJson(s.b))
  {
    var f := PlayersJson(s).fields;
    LookupAt([], "A", PlayerJson(s.a), f[1..]);
    assert [] + [("A", PlayerJson(s.a))] + f[1..] == f;
    assert Keys(f[..1]) == ["A"];
    LookupAt(f[..1], "B", PlayerJson(s.b), []);
    assert f[..1] + [("B", PlayerJson(s.b))] + [] == f;
  }

  /** Both saved players read back as they were. */
  lemma SavedPlayersBack(s: Persisted)
    ensures SavedPlayers(PlayersJson(s)) == Some((s.a, s.b))
  {
    PlayersLookup(s);
    PlayerFields(s.a);
    PlayerFields(s.b);
  }

  /** Where each key of the state is found in what `save` writes. */
  lemma SavedLookups(s: Persisted)
    ensures var j := PersistedJson(s);
      && Get(j, "round") == Some(JNum(s.round))
      && Get(j, "players") == Some(PlayersJson(s))
      && Get(j, "roundWinners") == Some(JArr(s.roundWinners))
      && Get(j, "history") == Some(JArr(s.history))
      && Get(j, "schemaVersion") == s.schemaVersion
  {
    SavedField(s, 0, "round", JNum(s.round));
    SavedField(s, 1, "players", PlayersJson(s));
    SavedField(s, 2, "roundWinners", JArr(s.roundWinners));
    SavedField(s, 3, "history", JArr(s.history));
    var f := PersistedJson(s).fields;
    assert Keys(f[..4]) == ["round", "players", "roundWinners", "history"];
    if s.schemaVersion.Some? {
      LookupAt(f[..4], "schemaVersion", s.schemaVersion.value, []);
      assert f[..4] + [("schemaVersion", s.schemaVersion.value)] + [] == f;
    } else {
      assert f == f[..4];
      LookupMissing(f, "schemaVersion");
    }
  }

  lemma SavedField(s: Persisted, i: nat, key: string, v: Json)
    requires i < 4 && StateFields(s)[i] == (key, v)
    ensures Get(PersistedJson(s), key) == Some(v)
  {
    var f := PersistedJson(s).fields;
    var st := StateFields(s);
    assert f[i] == st[i];
    assert forall k :: 0 <= k < i ==> f[k].0 == st[k].0 != st[i].0 by {
      assert |st[1].0| == |st[3].0| && st[1].0[0] != st[3].0[0];
    }
    LookupFirst(f, i);
  }

  /** Three points in a row from no streak light the first streak badge. */
  lemma ThreeHitsSmolder(g: Game, side: Side)
    requires g.state.PlayerOf(side).streak == 0
    ensures var g' := ScoreSpec(ScoreSpec(ScoreSpec(g, side, 1), side, 1), side, 1);
      StreakTier(g'.state.PlayerOf(side).streak) == Smolder
  {
    ScoreEffects(g, side, 1);
    ScoreEffects(ScoreSpec(g, side, 1), side, 1);
    ScoreEffects(ScoreSpec(ScoreSpec(g, side, 1), side, 1), side, 1);
  }

  /** The module-level `state` object of `src/main.js`, with its saved copy. */
  class GameState {
    var round: int
    var playerA: Player
    var playerB: Player
    var roundWinners: seq<Json>
    var history: seq<Json>
    var schemaVersion: Option<Json>
    var undoStack: seq<Persisted>
    var saved: Option<Persisted>

    function Current(): Persisted
      reads this
    {
      Persisted(round, playerA, playerB, roundWinners, history, schemaVersion)
    }

    function Model(): Game
      reads this
    {
      Game(Current(), undoStack, saved)
    }

    predicate Valid()
      reads this
    {
      GameValid(Model())
    }

    /** The initial `state` literal; nothing is saved yet. */
    constructor ()
      ensures Model() == Game(INITIAL, [], None)
      ensures Valid()
    {
      round := 1;
      playerA, playerB := DefaultPlayer(A), DefaultPlayer(B);
      roundWinners, history, schemaVersion := [], [], None;
      undoStack, saved := [], None;
    }

    method SetCurrent(s: Persisted)
      modifies this
      ensures Model() == old(Model()).(state := s)
    {
      round, playerA, playerB := s.round, s.a, s.b;
      roundWinners, history, schemaVersion := s.roundWinners, s.history, s.schemaVersion;
    }

    method Render()
      modifies this
      ensures Model() == Rendered(old(Model()))
    {
      saved := Some(Current());
    }

    /** `log(msg)`: append to the log and render. */
    method Log(msg: string)
      modifies this
      ensures Model() == Rendered(old(Model()).(state := old(Current()).Log(msg)))
    {
      history := history + [JStr(msg)];
      Render();
    }

    function PlayerOf(side: Side): Player
      reads this
    {
      Current().PlayerOf(side)
    }

    method SetPlayer(side: Side, p: Player)
      modifies this
      ensures Model() == old(Model()).(state := old(Current()).WithPlayer(side, p))
    {
      if side == A {
        playerA := p;
      } else {
        playerB := p;
      }
    }

    method PushUndoState()
      modifies this
      requires Valid()
      ensures Model() == PushUndoSpec(old(Model()))
      ensures Valid()
    {
      undoStack := undoStack + [Current()];
      if |undoStack| > UNDO_LIMIT {
        undoStack := undoStack[1..];
      }
    }

    method Score(side: Side, d: int)
      modifies this
      requires Valid()
      ensures Model() == ScoreSpec(old(Model()), side, d)
      ensures Valid()
    {
      PushUndoState();
      var p := PlayerOf(side);
      SetPlayer(side, p.(score := Max(0, p.score + d)));
      if d > 0 {
        SetPlayer(side, PlayerOf(side).(streak := PlayerOf(side).streak + 1));
        SetPlayer(Other(side), PlayerOf(Other(side)).(streak := 0));
        Log(PlayerOf(side).name + " spotted a bug! +1");
      } else {
        SetPlayer(side, PlayerOf(side).(streak := 0));
        Log(PlayerOf(side).name + " correction: -1");
      }
      Render();
    }

    method Undo()
      modifies this
      requires Valid()
      ensures Model() == UndoSpec(old(Model()))
      ensures Valid()
    {
      if |undoStack| == 0 {
        return;
      }
      var prev := undoStack[|undoStack| - 1];
      undoStack := undoStack[..|undoStack| - 1];
      SetCurrent(Assign(Current(), prev));
      Render();
    }

    method RecordRoundWinner()
      modifies this
      ensures Model() == RecordRoundWinnerSpec(old(Model()))
    {
      var a, b := playerA.score, playerB.score;
      var win := "T";
      if a > b {
        win := "A";
      } else if b > a {
        win := "B";
      }
      var before := Current();
      roundWinners := roundWinners + [RoundRecord(win, a, b)];
      Log(RoundMessage(before, win));
    }

    method NextRound()
      modifies this
      ensures Model() == NextRoundSpec(old(Model()))
    {
      RecordRoundWinner();
      round := round + 1;
      playerA, playerB := Cleared(playerA), Cleared(playerB);
      Log(FLAG + " Round " + IntToString(round) + " started!");
      Render();
    }

    method Reset(confirmed: bool)
      modifies this
      ensures Model() == ResetSpec(old(Model()), confirmed)
    {
      if confirmed {
        round := 1;
        playerA, playerB := Cleared(playerA), Cleared(playerB);
        history := [];
        roundWinners := [];
        Render();
      }
    }

    method ClearBoard(confirmed: bool)
      modifies this
      ensures Model() == ClearBoardSpec(old(Model()), confirmed)
    {
      if confirmed {
        roundWinners := [];
        Render();
      }
    }

    method Rename(side: Side, name: string)
      modifies this
      ensures Model() == RenameSpec(old(Model()), side, name)
    {
      SetPlayer(side, PlayerOf(side).(name := name));
      Render();
    }

    method ClearAllAppData(removeFails: bool)
      modifies this
      ensures Model() == ClearAllAppDataSpec(old(Model()), removeFails)
    {
      round := 1;
      playerA, playerB := DefaultPlayer(A), DefaultPlayer(B);
      history := [];
      roundWinners := [];
      Render();
      if !removeFails {
        saved := None;
      }
    }

    /**
     * `load()`: read the save, parse it, map the legacy rounds, assign the saved keys, empty
     * the undo stack and render.
     */
    method Load(stored: Option<string>, parse: string -> Text) returns (outcome: LoadOutcome)
      modifies this
      ensures (Model(), outcome) == LoadSpec(old(Model()), stored, parse)
      ensures outcome == Loaded ==> Valid()
    {
      if stored.Some? && stored.value != "" {
        var text := parse(stored.value);
        if text.OtherText? || text.value.JNull? {
          return LoadThrew;
        }
        var parsed := text.value;
        if !Representable(parsed) {
          return Unrepresentable;
        }
        SetCurrent(AssignSaved(Current(), parsed));
      }
      undoStack := [];
      Render();
      outcome := Loaded;
    }
  }
}
