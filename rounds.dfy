/**
 * Round records and the leaderboard of the game (`src/main.js`).
 *
 * A finished round is stored as `{winner, scoreA, scoreB}`. Older saves hold a bare
 * `'A'`, `'B'` or `'T'` instead; `load`, the import normaliser and the leaderboard each turn
 * those into records, and each treats empty entries a little differently. The leaderboard
 * then tallies wins, ties and points over the records in one pass.
 */
module Rounds {
  import opened Wrappers
  import opened Json

  /** `{ winner: w, scoreA: a, scoreB: b }`. */
  function RecordOf(w: Json, a: int, b: int): Json {
    JObj([("winner", w), ("scoreA", JNum(a)), ("scoreB", JNum(b))])
  }

  /** A record whose winner is one of the codes `'A'`, `'B'` and `'T'`. */
  function RoundRecord(w: string, a: int, b: int): Json {
    RecordOf(JStr(w), a, b)
  }

  lemma RecordFields(w: Json, a: int, b: int)
    ensures Get(RecordOf(w, a, b), "winner") == Some(w)
    ensures Get(RecordOf(w, a, b), "scoreA") == Some(JNum(a))
    ensures Get(RecordOf(w, a, b), "scoreB") == Some(JNum(b))
  {
    var f := RecordOf(w, a, b).fields;
    assert "winner"[0] != "scoreA"[0] && "winner"[0] != "scoreB"[0] && "scoreA"[5] != "scoreB"[5];
    var g := [("scoreA", JNum(a)), ("scoreB", JNum(b))];
    assert f[1..] == g && g[1..] == [("scoreB", JNum(b))];
    assert Lookup(f, "scoreA") == Lookup(g, "scoreA") == Some(JNum(a));
    assert Lookup(f, "scoreB") == Lookup(g, "scoreB") == Lookup(g[1..], "scoreB") == Some(JNum(b));
  }

  /** The winner code of a legacy string entry: `'A'` and `'B'` stand for themselves, anything else is a tie. */
  function LegacyWinner(s: string): (w: string)
    ensures w == "A" || w == "B" || w == "T"
    ensures (w == "A" <==> s == "A") && (w == "B" <==> s == "B")
  {
    if s == "A" then "A" else if s == "B" then "B" else "T"
  }

  /** The mapping step shared by `load`, the import normaliser and the leaderboard. */
  function LegacyEntry(r: Json): (e: Json)
    ensures r.JStr? ==> e == RoundRecord(LegacyWinner(r.s), 0, 0)
    ensures !r.JStr? ==> e == r
    ensures !e.JStr?
  {
    if r.JStr? then RoundRecord(LegacyWinner(r.s), 0, 0) else r
  }

  /** A record in the current shape passes through the mapping unchanged, so mapping twice is mapping once. */
  lemma LegacyEntryIdempotent(r: Json)
    ensures LegacyEntry(LegacyEntry(r)) == LegacyEntry(r)
  {
  }

  /** `load`: every string entry becomes a 0-0 record; nothing is dropped. */
  function LoadRounds(items: seq<Json>): (r: seq<Json>)
    ensures |r| == |items|
    ensures forall k :: 0 <= k < |r| ==> r[k] == LegacyEntry(items[k])
  {
    seq(|items|, k requires 0 <= k < |items| => LegacyEntry(items[k]))
  }

  /**
   * The import normaliser: map, then `.filter(Boolean)`. A mapped string is an object and so
   * survives, the empty string included; only falsy non-strings (`null`, `0`, `false`) are dropped.
   */
  function ImportRounds(items: seq<Json>): (r: seq<Json>)
    ensures |r| <= |items|
    ensures forall k :: 0 <= k < |r| ==> Truthy(r[k]) && !r[k].JStr?
  {
    if |items| == 0 then []
    else
      var e := LegacyEntry(items[0]);
      (if Truthy(e) then [e] else []) + ImportRounds(items[1..])
  }

  /** Rounds that are all records already pass the import normaliser unchanged. */
  lemma {:induction false} ImportRoundsKeepsRecords(items: seq<Json>)
    requires forall k :: 0 <= k < |items| ==> Truthy(items[k]) && !items[k].JStr?
    ensures ImportRounds(items) == items
  {
    if |items| > 0 {
      ImportRoundsKeepsRecords(items[1..]);
      assert items == [items[0]] + items[1..];
    }
  }

  /**
   * `renderLeaderboard`: a falsy entry becomes `null` before any string test, so the empty
   * string is dropped here, then the remaining strings become records and `null`s are filtered out.
   */
  function LeaderboardRounds(items: seq<Json>): (r: seq<Json>)
    ensures |r| <= |items|
    ensures forall k :: 0 <= k < |r| ==> Truthy(r[k]) && !r[k].JStr?
  {
    if |items| == 0 then []
    else (if Truthy(items[0]) then [LegacyEntry(items[0])] else []) + LeaderboardRounds(items[1..])
  }

  /** Every legacy string is a 0-0 record for the player it names, or a tie; the leaderboard drops exactly the falsy entries. */
  lemma {:induction false} LeaderboardLegacy(items: seq<Json>)
    ensures |LeaderboardRounds(items)| == |items| <==> forall k :: 0 <= k < |items| ==> Truthy(items[k])
    ensures (forall k :: 0 <= k < |items| ==> Truthy(items[k])) ==>
              forall k :: 0 <= k < |items| ==> LeaderboardRounds(items)[k] == LegacyEntry(items[k])
  {
    if |items| > 0 {
      LeaderboardLegacy(items[1..]);
      var rest := LeaderboardRounds(items[1..]);
      if Truthy(items[0]) {
        assert LeaderboardRounds(items) == [LegacyEntry(items[0])] + rest;
      } else {
        assert LeaderboardRounds(items) == rest;
      }
    }
  }

  /**
   * A state restored by `load` and one restored by an import show the same leaderboard:
   * the only entries the two mappings treat differently are empty strings, which `load` turns
   * into ties while the leaderboard itself would drop them, and a tie record is kept by both.
   */
  lemma {:induction false} LoadedLeaderboardIsImported(items: seq<Json>)
    ensures LeaderboardRounds(LoadRounds(items)) == ImportRounds(items)
  {
    if |items| > 0 {
      LoadedLeaderboardIsImported(items[1..]);
      assert LoadRounds(items) == [LegacyEntry(items[0])] + LoadRounds(items[1..]);
      assert LoadRounds(items)[1..] == LoadRounds(items[1..]);
      LegacyEntryIdempotent(items[0]);
    }
  }

  /**
   * The running totals of the leaderboard. A total is `None` once a round's score is neither
   * a number, `null` nor a boolean: JavaScript's `+=` then yields `NaN` or a string.
   */
  datatype Tally = Tally(totalA: Option<int>, totalB: Option<int>, winsA: nat, winsB: nat, ties: nat)

  const NO_ROUNDS := Tally(Some(0), Some(0), 0, 0, 0)

  /** `total += r.score`. */
  function AddScore(total: Option<int>, v: Option<Json>): Option<int> {
    match (total, v)
    case (Some(t), Some(JNum(n))) => Some(t + n)
    case (Some(t), Some(JNull)) => Some(t)
    case (Some(t), Some(JBool(b))) => Some(if b then t + 1 else t)
    case _ => None
  }

  /** One iteration of the `forEach` that accumulates the tallies. */
  function TallyStep(t: Tally, r: Json): Tally {
    var w := Get(r, "winner");
    var t1 := t.(totalA := AddScore(t.totalA, Get(r, "scoreA")), totalB := AddScore(t.totalB, Get(r, "scoreB")));
    if w == Some(JStr("A")) then t1.(winsA := t.winsA + 1)
    else if w == Some(JStr("B")) then t1.(winsB := t.winsB + 1)
    else t1.(ties := t.ties + 1)
  }

  /** The tallies after the rounds, taken in order. */
  function TallyOf(rounds: seq<Json>): Tally {
    if |rounds| == 0 then NO_ROUNDS
    else TallyStep(TallyOf(rounds[..|rounds| - 1]), rounds[|rounds| - 1])
  }

  /** The tallying loop of `renderLeaderboard`. */
  method TallyRounds(rounds: seq<Json>) returns (t: Tally)
    ensures t == TallyOf(rounds)
  {
    t := NO_ROUNDS;
    var i := 0;
    while i < |rounds|
      invariant 0 <= i <= |rounds|
      invariant t == TallyOf(rounds[..i])
    {
      var r := rounds[i];
      var w := Get(r, "winner");
      t := t.(totalA := AddScore(t.totalA, Get(r, "scoreA")), totalB := AddScore(t.totalB, Get(r, "scoreB")));
      if w == Some(JStr("A")) {
        t := t.(winsA := t.winsA + 1);
      } else if w == Some(JStr("B")) {
        t := t.(winsB := t.winsB + 1);
      } else {
        t := t.(ties := t.ties + 1);
      }
      assert rounds[..i + 1][..i] == rounds[..i];
      i := i + 1;
    }
    assert rounds[..i] == rounds;
  }

  /** Every round counts once: as a win for A, a win for B, or a tie. */
  lemma {:induction false} TallyCountsEveryRound(rounds: seq<Json>)
    ensures TallyOf(rounds).winsA + TallyOf(rounds).winsB + TallyOf(rounds).ties == |rounds|
  {
    if |rounds| > 0 {
      TallyCountsEveryRound(rounds[..|rounds| - 1]);
    }
  }

  /**
   * From tallies `t` to `t'`, a round won by `w` (or tied, "T") with scores `a` and `b`
   * was counted: one more for exactly the counter of `w`, and the scores added to the totals.
   */
  predicate CountedOnce(t: Tally, t': Tally, w: string, a: int, b: int) {
    && t'.winsA == t.winsA + (if w == "A" then 1 else 0)
    && t'.winsB == t.winsB + (if w == "B" then 1 else 0)
    && t'.ties == t.ties + (if w == "T" then 1 else 0)
    && (t.totalA.Some? ==> t'.totalA == Some(t.totalA.value + a))
    && (t.totalB.Some? ==> t'.totalB == Some(t.totalB.value + b))
  }

  /** Recording one more round adds one to exactly the counter of its winner, and its scores to the totals. */
  lemma TallyAppendRecord(rounds: seq<Json>, w: string, a: int, b: int)
    requires w == "A" || w == "B" || w == "T"
    ensures CountedOnce(TallyOf(rounds), TallyOf(rounds + [RoundRecord(w, a, b)]), w, a, b)
  {
    RecordFields(JStr(w), a, b);
    TallyAppend(rounds, RoundRecord(w, a, b), w, a, b);
  }

  /** The same, for any round object whose winner and scores read as given. */
  lemma TallyAppend(rounds: seq<Json>, r: Json, w: string, a: int, b: int)
    requires w == "A" || w == "B" || w == "T"
    requires Get(r, "winner") == Some(JStr(w))
    requires Get(r, "scoreA") == Some(JNum(a)) && Get(r, "scoreB") == Some(JNum(b))
    ensures CountedOnce(TallyOf(rounds), TallyOf(rounds + [r]), w, a, b)
  {
    TallyOfAppend(rounds, r);
    TallyStepFields(TallyOf(rounds), TallyOf(rounds + [r]), r, w, a, b);
  }

  lemma TallyStepFields(t: Tally, t': Tally, r: Json, w: string, a: int, b: int)
    requires w == "A" || w == "B" || w == "T"
    requires Get(r, "winner") == Some(JStr(w))
    requires Get(r, "scoreA") == Some(JNum(a)) && Get(r, "scoreB") == Some(JNum(b))
    requires t' == TallyStep(t, r)
    ensures CountedOnce(t, t', w, a, b)
  {
    assert "T" != "A" && "T" != "B" && "A" != "B";
  }

  lemma TallyOfAppend(rounds: seq<Json>, r: Json)
    ensures TallyOf(rounds + [r]) == TallyStep(TallyOf(rounds), r)
  {
    var s := rounds + [r];
    assert s[..|s| - 1] == rounds;
  }

  /**
   * `Math.round((winsA / winTotal) * 100)`, or 50 when no round was won, computed exactly:
   * `Math.round` rounds halves up, which on non-negative values is `floor(x + 1/2)`.
   */
  function PercentA(winsA: nat, winsB: nat): int {
    var total := winsA + winsB;
    if total == 0 then 50 else (200 * winsA + total) / (2 * total)
  }

  function PercentB(winsA: nat, winsB: nat): int {
    100 - PercentA(winsA, winsB)
  }

  /** The two shares are percentages that sum to 100, and the player with more wins never has the smaller share. */
  lemma PercentShares(winsA: nat, winsB: nat)
    ensures 0 <= PercentA(winsA, winsB) <= 100 && 0 <= PercentB(winsA, winsB) <= 100
    ensures PercentA(winsA, winsB) + PercentB(winsA, winsB) == 100
    ensures winsA + winsB == 0 ==> PercentA(winsA, winsB) == 50
    ensures winsA == winsB ==> PercentA(winsA, winsB) == 50
    ensures winsA > winsB ==> PercentA(winsA, winsB) >= 50
    ensures winsA < winsB ==> PercentA(winsA, winsB) <= 50
    ensures winsA > 0 && winsB == 0 ==> PercentA(winsA, winsB) == 100
    ensures winsA == 0 && winsB > 0 ==> PercentA(winsA, winsB) == 0
  {
    var total := winsA + winsB;
    if total > 0 {
      var n, d := 200 * winsA + total, 2 * total;
      var q := n / d;
      assert q * d <= n < q * d + d;
      // n lies between 0 and 101 * d and, when A has at least as many wins, from 50 * d up
      assert 0 <= n < 101 * d;
      QuotientBelow(n, d, q, 101);
      if winsA >= winsB {
        assert 50 * d <= n;
        QuotientAbove(n, d, q, 50);
      }
      if winsA <= winsB {
        assert n < 51 * d;
        QuotientBelow(n, d, q, 51);
      }
      if winsB == 0 {
        assert 100 * d <= n;
        QuotientAbove(n, d, q, 100);
      }
      if winsA == 0 {
        assert n < d;
        QuotientBelow(n, d, q, 1);
      }
    }
  }

  lemma QuotientBelow(n: int, d: int, q: int, k: int)
    requires d > 0 && q * d <= n && n < k * d
    ensures q < k
  {
    assert (k - q) * d == k * d - q * d;
    PositiveFactor(k - q, d);
  }

  lemma QuotientAbove(n: int, d: int, q: int, k: int)
    requires d > 0 && k * d <= n && n < q * d + d
    ensures q >= k
  {
    assert (q + 1 - k) * d == q * d + d - k * d;
    PositiveFactor(q + 1 - k, d);
  }

  lemma PositiveFactor(x: int, d: int)
    requires d > 0 && x * d > 0
    ensures x > 0
  {
  }

  /** The badge `updateStreakBadge` shows. */
  datatype Tier = Plain | Smolder | Burning | Inferno

  function StreakTier(streak: int): Tier {
    if streak >= 10 then Inferno
    else if streak >= 5 then Burning
    else if streak >= 3 then Smolder
    else Plain
  }

  function TierRank(t: Tier): nat {
    match t
    case Plain => 0
    case Smolder => 1
    case Burning => 2
    case Inferno => 3
  }

  /** A longer streak never shows a lesser badge, and the badges start at 3, 5 and 10. */
  lemma StreakTierMonotone(s1: int, s2: int)
    requires s1 <= s2
    ensures TierRank(StreakTier(s1)) <= TierRank(StreakTier(s2))
    ensures StreakTier(s2) == Plain <==> s2 < 3
    ensures StreakTier(s2) == Inferno <==> s2 >= 10
  {
  }
}
