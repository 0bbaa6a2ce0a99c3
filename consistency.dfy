/**
 * Season-long consistency bonuses. Each player's placements are laid out
 * on a timeline in game-id order; streaks of top-2 finishes and two fixed
 * five-game windows without a 4th place earn extra points on the game
 * that completes them.
 */
module Consistency {
  import opened Seqs
  import opened Sums
  import opened Records

  /** One game on a player's timeline: which game, and the raw placement in it. */
  datatype Entry = Entry(gameId: int, placement: int)

  /** The entries of `p`, in the order of `games`, for the games in which `p` has a result. */
  function Timeline(games: seq<Game>, p: Player): seq<Entry> {
    if games == [] then []
    else
      var last := games[|games| - 1];
      Timeline(games[..|games| - 1], p)
      + (if p in last.results then [Entry(last.gameId, last.results[p].placement)] else [])
  }

  /** The game ids of a timeline, in timeline order. */
  function GameIds(t: seq<Entry>): (ids: seq<int>)
    ensures |ids| == |t|
  {
    seq(|t|, i requires 0 <= i < |t| => t[i].gameId)
  }

  /** The game id at position i of a timeline. */
  function IdAt(t: seq<Entry>, i: nat): int
    requires i < |t|
  {
    t[i].gameId
  }

  /** Game ids strictly increase along the timeline. */
  ghost predicate Ascending(t: seq<Entry>) {
    forall i, j :: 0 <= i < j < |t| ==> IdAt(t, i) < IdAt(t, j)
  }

  /** On an ascending timeline two different positions hold different games. */
  lemma {:induction false} AscendingIdsDiffer(t: seq<Entry>, i: nat, j: nat)
    requires Ascending(t) && i < |t| && j < |t| && i != j
    ensures t[i].gameId != t[j].gameId
  {
    if i < j {
      assert IdAt(t, i) < IdAt(t, j);
    } else {
      assert IdAt(t, j) < IdAt(t, i);
    }
  }

  predicate Top2(e: Entry) {
    e.placement <= 2
  }

  /** No entry at positions lo to hi - 1 of the timeline is a 4th place. */
  predicate NoFourth(t: seq<Entry>, lo: nat, hi: nat)
    requires lo <= hi <= |t|
  {
    forall k :: lo <= k < hi ==> t[k].placement != 4
  }

  /** +2 on entry i when entries i-1 and i are both top-2 finishes. */
  function BackToBack(t: seq<Entry>, i: nat): int
    requires i < |t|
  {
    if i >= 1 && Top2(t[i - 1]) && Top2(t[i]) then 2 else 0
  }

  /** +3 on entry i when entries i-2, i-1 and i are all top-2 finishes. */
  function ThreeStraight(t: seq<Entry>, i: nat): int
    requires i < |t|
  {
    if i >= 2 && Top2(t[i - 2]) && Top2(t[i - 1]) && Top2(t[i]) then 3 else 0
  }

  /** +2 on the 5th entry when entries 1-5 hold no 4th place, and on the 10th when entries 6-10 hold none. */
  function WindowBonus(t: seq<Entry>, i: nat): int
    requires i < |t|
  {
    if i == 4 && NoFourth(t, 0, 5) then 2
    else if i == 9 && NoFourth(t, 5, 10) then 2
    else 0
  }

  /** The consistency bonus credited to the game at position i of a timeline. */
  function BonusAt(t: seq<Entry>, i: nat): (r: int)
    requires i < |t|
    ensures 0 <= r <= 7
    ensures i != 4 && i != 9 ==> r <= 5
    ensures i == 0 ==> r == 0
  {
    BackToBack(t, i) + ThreeStraight(t, i) + WindowBonus(t, i)
  }

  /** The bonus of every game of a timeline, in timeline order. */
  function PerGameBonuses(t: seq<Entry>): (b: seq<int>)
    ensures |b| == |t|
  {
    seq(|t|, i requires 0 <= i < |t| => BonusAt(t, i))
  }

  /** A player's season consistency total. */
  function TotalBonus(t: seq<Entry>): int {
    Sum(PerGameBonuses(t))
  }

  /** `bonus` holds one bucket per game of the timeline, each with that game's bonus. */
  ghost predicate Awarded(bonus: map<int, int>, t: seq<Entry>) {
    && bonus.Keys == IdSet(t)
    && forall i :: 0 <= i < |t| ==> t[i].gameId in bonus && bonus[t[i].gameId] == BonusAt(t, i)
  }

  /** The set of game ids of a timeline; every entry's id is in it. */
  function IdSet(t: seq<Entry>): (ids: set<int>)
    ensures ids == Elems(GameIds(t))
    ensures forall i :: 0 <= i < |t| ==> t[i].gameId in ids
  {
    var ids := Elems(GameIds(t));
    assert forall i :: 0 <= i < |t| ==> GameIds(t)[i] == t[i].gameId;
    ids
  }

  /** The per-game buckets before any bonus: 0 for every game of the timeline. */
  function ZeroBuckets(t: seq<Entry>): (m: map<int, int>)
    ensures m.Keys == IdSet(t)
    ensures forall i :: 0 <= i < |t| ==> m[t[i].gameId] == 0
  {
    map gid | gid in IdSet(t) :: 0
  }

  /** The buckets of the first n games of a timeline, each holding that game's bonus. */
  ghost function Buckets(t: seq<Entry>, n: nat): map<int, int>
    requires n <= |t|
  {
    if n == 0 then map[] else Buckets(t, n - 1)[t[n - 1].gameId := BonusAt(t, n - 1)]
  }

  /** On an ascending timeline the first n buckets hold the first n games' bonuses and no other game. */
  lemma {:induction false} BucketsAt(t: seq<Entry>, n: nat)
    requires Ascending(t) && n <= |t|
    ensures Buckets(t, n).Keys <= IdSet(t)
    ensures forall i :: 0 <= i < n ==> t[i].gameId in Buckets(t, n) && Buckets(t, n)[t[i].gameId] == BonusAt(t, i)
  {
    if n > 0 {
      BucketsAt(t, n - 1);
      forall i | 0 <= i < n - 1 ensures t[i].gameId != t[n - 1].gameId {
        AscendingIdsDiffer(t, i, n - 1);
      }
    }
  }

  /** The buckets of a whole ascending timeline are awarded: one per game, each with its bonus. */
  lemma {:induction false} BucketsAwarded(t: seq<Entry>)
    requires Ascending(t)
    ensures Awarded(Buckets(t, |t|), t)
  {
    var all := Buckets(t, |t|);
    BucketsAt(t, |t|);
    forall g | g in IdSet(t) ensures g in all {
      var i :| 0 <= i < |GameIds(t)| && GameIds(t)[i] == g;
    }
  }

  /** Awarded buckets of an ascending timeline are exactly its buckets. */
  lemma {:induction false} AwardedIsBuckets(bonus: map<int, int>, t: seq<Entry>)
    requires Ascending(t) && Awarded(bonus, t)
    ensures bonus == Buckets(t, |t|)
  {
    BucketsAwarded(t);
    SameBuckets(bonus, Buckets(t, |t|), t);
  }

  /** Two bucket maps over the games of a timeline that agree on every game are equal. */
  lemma {:induction false} SameBuckets(a: map<int, int>, b: map<int, int>, t: seq<Entry>)
    requires a.Keys == IdSet(t) && b.Keys == IdSet(t)
    requires forall i :: 0 <= i < |t| ==> a[t[i].gameId] == b[t[i].gameId]
    ensures a == b
  {
    forall g | g in a ensures a[g] == b[g] {
      var i :| 0 <= i < |GameIds(t)| && GameIds(t)[i] == g;
    }
  }

  // ---------- Properties of the timeline ----------

  /** An entry is on p's timeline exactly when some game holds p's result with that id and placement. */
  lemma {:induction false} TimelineEntries(games: seq<Game>, p: Player)
    ensures forall e :: e in Timeline(games, p) <==>
      exists g :: g in games && p in g.results && e == Entry(g.gameId, g.results[p].placement)
  {
    if games != [] {
      var init := games[..|games| - 1];
      TimelineEntries(init, p);
      assert games == init + [games[|games| - 1]];
    }
  }

  /** When the games are in strictly increasing id order, so is every timeline. */
  lemma {:induction false} TimelineAscending(games: seq<Game>, p: Player)
    requires forall i, j :: 0 <= i < j < |games| ==> games[i].gameId < games[j].gameId
    ensures Ascending(Timeline(games, p))
  {
    if games != [] {
      var init, last := games[..|games| - 1], games[|games| - 1];
      TimelineAscending(init, p);
      TimelineEntries(init, p);
      var t0 := Timeline(init, p);
      forall e | e in t0 ensures e.gameId < last.gameId {
        var g :| g in init && p in g.results && e == Entry(g.gameId, g.results[p].placement);
        var k :| 0 <= k < |init| && init[k] == g;
      }
      var t := Timeline(games, p);
      if p in last.results {
        forall i, j | 0 <= i < j < |t| ensures IdAt(t, i) < IdAt(t, j) {
          assert t[i] == t0[i];
          if j < |t0| {
            assert t[j] == t0[j];
            assert IdAt(t0, i) < IdAt(t0, j);
          } else {
            assert t0[i] in t0;
          }
        }
      } else {
        assert t == t0;
      }
    }
  }

  /** A timeline of a season where p played every game has one entry per game, with that game's id. */
  lemma {:induction false} TimelineOfFullRoster(games: seq<Game>, p: Player)
    requires forall g :: g in games ==> p in g.results
    ensures |Timeline(games, p)| == |games|
    ensures forall i :: 0 <= i < |games| ==>
      Timeline(games, p)[i] == Entry(games[i].gameId, games[i].results[p].placement)
  {
    if games != [] {
      var init := games[..|games| - 1];
      assert forall g :: g in init ==> g in games;
      TimelineOfFullRoster(init, p);
    }
  }

  // ---------- Properties of the bonuses ----------

  /** Placements 2, 1, 2: +2 on the second game, and +2 and +3 stacked on the third. */
  lemma {:induction false} StackedStreakExample(a: int, b: int, c: int)
    ensures var t := [Entry(a, 2), Entry(b, 1), Entry(c, 2)];
      PerGameBonuses(t) == [0, 2, 5]
  {
  }

  /** Placements 1, 2, 3: the streak ends with the 3rd place, so only the second game earns +2. */
  lemma {:induction false} BrokenStreakExample(a: int, b: int, c: int)
    ensures var t := [Entry(a, 1), Entry(b, 2), Entry(c, 3)];
      PerGameBonuses(t) == [0, 2, 0]
  {
  }

  /** Without five entries no window bonus is awarded, and without ten no second one. */
  lemma {:induction false} WindowNeedsFullWindow(t: seq<Entry>, i: nat)
    requires i < |t|
    ensures |t| < 5 ==> WindowBonus(t, i) == 0
    ensures |t| < 10 && i != 4 ==> WindowBonus(t, i) == 0
    ensures WindowBonus(t, i) != 0 <==>
      (i == 4 && NoFourth(t, 0, 5)) || (i == 9 && NoFourth(t, 5, 10))
  {
  }

  /** A sum of per-game bonuses lies between 0 and 5 per game plus 2 for each completed window. */
  lemma {:induction false} BonusSumBounds(b: seq<int>)
    requires forall i :: 0 <= i < |b| ==> 0 <= b[i] <= (if i == 4 || i == 9 then 7 else 5)
    ensures 0 <= Sum(b) <= 5 * |b| + (if |b| >= 5 then 2 else 0) + (if |b| >= 10 then 2 else 0)
  {
    if b != [] {
      BonusSumBounds(b[..|b| - 1]);
    }
  }

  /** A season consistency total is never negative and at most 5 per game plus 2 per window. */
  lemma {:induction false} TotalBonusBounds(t: seq<Entry>)
    ensures 0 <= TotalBonus(t) <= 5 * |t| + (if |t| >= 5 then 2 else 0) + (if |t| >= 10 then 2 else 0)
  {
    BonusSumBounds(PerGameBonuses(t));
  }

  /** The buckets of an awarded timeline add up to the timeline's total. */
  lemma {:induction false} AwardedSum(bonus: map<int, int>, t: seq<Entry>)
    requires Ascending(t) && Awarded(bonus, t)
    ensures MapSum(bonus) == TotalBonus(t)
  {
    forall i, j | 0 <= i < j < |t| ensures GameIds(t)[i] != GameIds(t)[j] {
      AscendingIdsDiffer(t, i, j);
    }
    MapSumOfEnumeration(bonus, GameIds(t), PerGameBonuses(t));
  }

  // ---------- The computation ----------

  /** The back-to-back loop: +2 on every game that completes two top-2 finishes in a row. */
  method AddBackToBack(t: seq<Entry>, buckets: map<int, int>) returns (bonus: map<int, int>)
    requires Ascending(t)
    requires forall k :: 0 <= k < |t| ==> t[k].gameId in buckets
    ensures bonus.Keys == buckets.Keys
    ensures forall k :: 0 <= k < |t| ==> bonus[t[k].gameId] == buckets[t[k].gameId] + BackToBack(t, k)
    ensures forall g :: g in buckets && g !in IdSet(t) ==> bonus[g] == buckets[g]
  {
    var n := |t|;
    bonus := buckets;
    var i := 1;
    while i < n
      invariant bonus.Keys == buckets.Keys
      invariant forall g :: g in buckets && g !in IdSet(t) ==> bonus[g] == buckets[g]
      invariant forall k :: 0 <= k < i && k < n ==> bonus[t[k].gameId] == buckets[t[k].gameId] + BackToBack(t, k)
      invariant forall k :: i <= k < n ==> bonus[t[k].gameId] == buckets[t[k].gameId]
    {
      var prev, curr := t[i - 1], t[i];
      forall k | 0 <= k < n && k != i ensures t[k].gameId != curr.gameId {
        AscendingIdsDiffer(t, k, i);
      }
      if prev.placement <= 2 && curr.placement <= 2 {
        bonus := bonus[curr.gameId := bonus[curr.gameId] + 2];
      }
      i := i + 1;
    }
  }

  /** The three-straight loop: +3 on every game that completes three top-2 finishes in a row. */
  method AddThreeStraight(t: seq<Entry>, buckets: map<int, int>) returns (bonus: map<int, int>)
    requires Ascending(t)
    requires forall k :: 0 <= k < |t| ==> t[k].gameId in buckets
    ensures bonus.Keys == buckets.Keys
    ensures forall k :: 0 <= k < |t| ==> bonus[t[k].gameId] == buckets[t[k].gameId] + ThreeStraight(t, k)
    ensures forall g :: g in buckets && g !in IdSet(t) ==> bonus[g] == buckets[g]
  {
    var n := |t|;
    bonus := buckets;
    var i := 2;
    while i < n
      invariant bonus.Keys == buckets.Keys
      invariant forall g :: g in buckets && g !in IdSet(t) ==> bonus[g] == buckets[g]
      invariant forall k :: 0 <= k < i && k < n ==> bonus[t[k].gameId] == buckets[t[k].gameId] + ThreeStraight(t, k)
      invariant forall k :: i <= k < n ==> bonus[t[k].gameId] == buckets[t[k].gameId]
    {
      var first, second, third := t[i - 2], t[i - 1], t[i];
      forall k | 0 <= k < n && k != i ensures t[k].gameId != third.gameId {
        AscendingIdsDiffer(t, k, i);
      }
      if first.placement <= 2 && second.placement <= 2 && third.placement <= 2 {
        bonus := bonus[third.gameId := bonus[third.gameId] + 3];
      }
      i := i + 1;
    }
  }

  /** The two window checks: +2 on the 5th game and on the 10th when their window holds no 4th place. */
  method AddWindows(t: seq<Entry>, buckets: map<int, int>) returns (bonus: map<int, int>)
    requires Ascending(t)
    requires forall k :: 0 <= k < |t| ==> t[k].gameId in buckets
    ensures bonus.Keys == buckets.Keys
    ensures forall k :: 0 <= k < |t| ==> bonus[t[k].gameId] == buckets[t[k].gameId] + WindowBonus(t, k)
    ensures forall g :: g in buckets && g !in IdSet(t) ==> bonus[g] == buckets[g]
  {
    var n := |t|;
    bonus := buckets;

    // Window 1: games 1-5, bonus on game 5.
    if n >= 5 {
      if NoFourth(t, 0, 5) {
        var gid5 := t[4].gameId;
        bonus := bonus[gid5 := bonus[gid5] + 2];
      }
    }
    ghost var firstWindow := bonus;

    // Window 2: games 6-10, bonus on game 10.
    if n >= 10 {
      if NoFourth(t, 5, 10) {
        var gid10 := t[9].gameId;
        bonus := bonus[gid10 := bonus[gid10] + 2];
      }
    }

    forall k | 0 <= k < n
      ensures bonus[t[k].gameId] == buckets[t[k].gameId] + WindowBonus(t, k)
    {
      if k != 4 && n >= 5 {
        AscendingIdsDiffer(t, k, 4);
      }
      assert firstWindow[t[k].gameId] == buckets[t[k].gameId] + (if k == 4 then WindowBonus(t, k) else 0);
      if k != 9 && n >= 10 {
        AscendingIdsDiffer(t, k, 9);
      }
    }
  }

  /** Adds every rule's bonus to the buckets of one timeline, rule by rule as the source does. */
  method AddBonuses(t: seq<Entry>, buckets: map<int, int>) returns (bonus: map<int, int>)
    requires Ascending(t)
    requires forall k :: 0 <= k < |t| ==> t[k].gameId in buckets
    ensures bonus.Keys == buckets.Keys
    ensures forall i :: 0 <= i < |t| ==> bonus[t[i].gameId] == buckets[t[i].gameId] + BonusAt(t, i)
    ensures forall g :: g in buckets && g !in IdSet(t) ==> bonus[g] == buckets[g]
  {
    var afterPairs := AddBackToBack(t, buckets);
    var afterTriples := AddThreeStraight(t, afterPairs);
    bonus := AddWindows(t, afterTriples);
  }

  /** The placement timeline of every roster player: the game loop appending to each player's list. */
  method BuildTimelines(gamesSorted: seq<Game>, players: seq<Player>) returns (placements: map<Player, seq<Entry>>)
    requires Distinct(players)
    ensures placements.Keys == Elems(players)
    ensures forall p :: p in placements ==> placements[p] == Timeline(gamesSorted, p)
  {
    placements := map p | p in players :: [];
    for gi := 0 to |gamesSorted|
      invariant placements.Keys == Elems(players)
      invariant forall p :: p in placements ==> placements[p] == Timeline(gamesSorted[..gi], p)
    {
      var g := gamesSorted[gi];
      assert gamesSorted[..gi + 1][..gi] == gamesSorted[..gi];
      for k := 0 to |players|
        invariant placements.Keys == Elems(players)
        invariant forall j :: 0 <= j < k ==> placements[players[j]] == Timeline(gamesSorted[..gi + 1], players[j])
        invariant forall j :: k <= j < |players| ==> placements[players[j]] == Timeline(gamesSorted[..gi], players[j])
      {
        var p := players[k];
        if p in g.results {
          placements := placements[p := placements[p] + [Entry(g.gameId, g.results[p].placement)]];
        }
      }
    }
    assert gamesSorted[..|gamesSorted|] == gamesSorted;
  }

  /**
   * One player's turn: every rule's bonus added to the zero buckets of their
   * timeline; a player without placements is skipped.
   */
  method AwardPlayer(t: seq<Entry>, buckets: map<int, int>) returns (bonus: map<int, int>)
    requires Ascending(t)
    requires buckets == ZeroBuckets(t)
    ensures Awarded(bonus, t)
    ensures bonus == Buckets(t, |t|)
  {
    if |t| == 0 {
      // A player without placements keeps their (empty) buckets.
      bonus := buckets;
      assert bonus == Buckets(t, 0);
      return;
    }
    bonus := AddBonuses(t, buckets);
    AwardedIsBuckets(bonus, t);
  }

  /**
   * Replacing the k-th player's zero buckets by their awarded buckets keeps
   * every other player's buckets: the roster holds each player once.
   */
  lemma {:induction false} AwardStep(placements: map<Player, seq<Entry>>, players: seq<Player>,
                                     perGame: map<Player, map<int, int>>, k: nat, b: map<int, int>)
    requires forall k :: 0 <= k < |players| ==> players[k] !in players[..k]
    requires placements.Keys == Elems(players) && perGame.Keys == Elems(players)
    requires k < |players|
    requires forall j :: 0 <= j < k ==> perGame[players[j]] == Buckets(placements[players[j]], |placements[players[j]]|)
    requires forall j :: k < j < |players| ==> perGame[players[j]] == ZeroBuckets(placements[players[j]])
    requires b == Buckets(placements[players[k]], |placements[players[k]]|)
    ensures forall j :: 0 <= j <= k ==> perGame[players[k] := b][players[j]] == Buckets(placements[players[j]], |placements[players[j]]|)
    ensures forall j :: k < j < |players| ==> perGame[players[k] := b][players[j]] == ZeroBuckets(placements[players[j]])
  {
    var p := players[k];
    forall j | 0 <= j < k ensures players[j] != p {
      assert players[..k][j] == players[j];
    }
    forall j | k < j < |players| ensures players[j] != p {
      assert players[..j][k] == p;
    }
  }

  /** Fills one zero bucket per game of each timeline, then adds each player's bonuses. */
  method AwardTimelines(placements: map<Player, seq<Entry>>, players: seq<Player>)
    returns (perGame: map<Player, map<int, int>>)
    requires forall k :: 0 <= k < |players| ==> players[k] !in players[..k]
    requires placements.Keys == Elems(players)
    requires forall p :: p in placements ==> Ascending(placements[p])
    ensures perGame.Keys == Elems(players)
    ensures forall p :: p in perGame ==> Awarded(perGame[p], placements[p])
  {
    perGame := map p | p in players :: ZeroBuckets(placements[p]);
    for k := 0 to |players|
      invariant perGame.Keys == Elems(players)
      invariant forall j :: 0 <= j < k ==> perGame[players[j]] == Buckets(placements[players[j]], |placements[players[j]]|)
      invariant forall j :: k <= j < |players| ==> perGame[players[j]] == ZeroBuckets(placements[players[j]])
    {
      var p := players[k];
      var b := AwardPlayer(placements[p], perGame[p]);
      AwardStep(placements, players, perGame, k, b);
      perGame := perGame[p := b];
    }
    forall p | p in perGame ensures Awarded(perGame[p], placements[p]) {
      var j :| 0 <= j < |players| && players[j] == p;
      BucketsAwarded(placements[p]);
    }
  }

  /**
   * The consistency bonuses of a season: for every player of the roster, the
   * bonus credited to each game of their timeline and the season total.
   */
  method ComputeConsistencyBonuses(games: seq<Game>, players: seq<Player>)
    returns (total: map<Player, int>, perGame: map<Player, map<int, int>>)
    requires DistinctIds(games)
    requires Distinct(players)
    ensures total.Keys == Elems(players) && perGame.Keys == Elems(players)
    ensures forall p :: p in perGame ==> Awarded(perGame[p], Timeline(SeasonOrder(games), p))
    ensures forall p :: p in total ==> total[p] == MapSum(perGame[p])
    ensures forall p :: p in total ==> total[p] == TotalBonus(Timeline(SeasonOrder(games), p))
  {
    var gamesSorted := SeasonOrder(games);
    SeasonOrderStrictlyIncreasing(games);

    // Each player's timeline, built game by game.
    var placements := BuildTimelines(gamesSorted, players);

    // One zero bucket per game of each timeline, then the bonuses.
    forall p | p in placements ensures Ascending(placements[p]) {
      TimelineAscending(gamesSorted, p);
    }
    FirstOccurrences(players);
    perGame := AwardTimelines(placements, players);

    // Each player's total is the sum of their per-game buckets.
    total := SumTotals(perGame, players);

    forall p | p in total
      ensures total[p] == TotalBonus(Timeline(gamesSorted, p))
    {
      TimelineAscending(gamesSorted, p);
      AwardedSum(perGame[p], placements[p]);
    }
  }

  /** The total comprehension: every roster player's buckets summed. */
  method SumTotals(perGame: map<Player, map<int, int>>, players: seq<Player>) returns (total: map<Player, int>)
    requires perGame.Keys == Elems(players)
    ensures total.Keys == Elems(players)
    ensures forall p :: p in total ==> total[p] == MapSum(perGame[p])
  {
    total := map[];
    for k := 0 to |players|
      invariant total.Keys == Elems(players[..k])
      invariant forall p :: p in total ==> total[p] == MapSum(perGame[p])
    {
      var p := players[k];
      var s := SumValues(perGame[p]);
      total := total[p := s];
      assert players[..k + 1] == players[..k] + [p];
    }
    assert players[..|players|] == players;
  }
}
