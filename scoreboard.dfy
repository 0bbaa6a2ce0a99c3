/**
 * The scoreboard's own per-game breakdown and its ranking. The breakdown
 * derives most and least coins from the game itself, adds item and space
 * bonuses and has no minigame points; its constants come from a score
 * calculator that is not part of this model and are parameters here.
 */
module Scoreboard {
  import opened Wrappers
  import opened Seqs
  import opened Sorting
  import opened Records
  import Scoring

  /**
   * The score calculator's constants: PLACEMENT_POINTS, BONUS_STAR_POINTS,
   * COIN_THRESHOLD_POINTS, COIN_THRESHOLD and COIN_THRESHOLD_MAX.
   */
  datatype Rules = Rules(
    placementPoints: map<int, int>,
    bonusStarPoints: int,
    coinThresholdPoints: int,
    coinThreshold: int,
    coinThresholdMax: int)

  /** The only facts assumed of the constants: a positive threshold and a non-negative cap. */
  predicate ValidRules(rules: Rules) {
    rules.coinThreshold > 0 && rules.coinThresholdMax >= 0
  }

  /** One player's itemised points for one game. */
  datatype Breakdown = Breakdown(
    placementPts: int,
    bonusStarPts: int,
    coinThresholdPts: int,
    coinMostPts: int,
    coinLeastPts: int,
    itemsPts: int,
    spacesPts: int,
    baseTotal: int)

  /** Every roster player has a result in the game. */
  ghost predicate Covers(results: map<Player, PlayerResult>, players: seq<Player>) {
    forall p :: p in players ==> p in results
  }

  /** The largest coin count among the roster's results. */
  function MaxCoins(results: map<Player, PlayerResult>, players: seq<Player>): (m: int)
    requires |players| > 0 && Covers(results, players)
    ensures exists p :: p in players && results[p].coins == m
    ensures forall p :: p in players ==> results[p].coins <= m
  {
    var c := results[players[0]].coins;
    if |players| == 1 then c
    else
      var rest := MaxCoins(results, players[1..]);
      assert forall p :: p in players[1..] ==> p in players;
      assert forall p :: p in players ==> p == players[0] || p in players[1..];
      if c >= rest then c else rest
  }

  /** The smallest coin count among the roster's results. */
  function MinCoins(results: map<Player, PlayerResult>, players: seq<Player>): (m: int)
    requires |players| > 0 && Covers(results, players)
    ensures exists p :: p in players && results[p].coins == m
    ensures forall p :: p in players ==> m <= results[p].coins
  {
    var c := results[players[0]].coins;
    if |players| == 1 then c
    else
      var rest := MinCoins(results, players[1..]);
      assert forall p :: p in players[1..] ==> p in players;
      assert forall p :: p in players ==> p == players[0] || p in players[1..];
      if c <= rest then c else rest
  }

  /** Threshold units: one per full COIN_THRESHOLD coins, capped at COIN_THRESHOLD_MAX. */
  function ThresholdUnits(rules: Rules, coins: int): (u: int)
    requires ValidRules(rules)
    ensures coins >= 0 ==> 0 <= u <= rules.coinThresholdMax
    ensures u <= coins / rules.coinThreshold && u <= rules.coinThresholdMax
    ensures u == coins / rules.coinThreshold || u == rules.coinThresholdMax
  {
    var units := coins / rules.coinThreshold;
    if units < rules.coinThresholdMax then units else rules.coinThresholdMax
  }

  /** The itemised points of one result, given the game's largest and smallest coin counts. */
  function PlayerBreakdown(rules: Rules, r: PlayerResult, maxCoins: int, minCoins: int): Breakdown
    requires ValidRules(rules)
  {
    var placementPts := if r.placement in rules.placementPoints then rules.placementPoints[r.placement] else 0;
    var bonusStarPts := r.bonusStars * rules.bonusStarPoints;
    var coinThresholdPts := ThresholdUnits(rules, r.coins) * rules.coinThresholdPoints;
    var coinMostPts := if r.coins == maxCoins && maxCoins > 0 then 2 else 0;
    var coinLeastPts := if r.coins == minCoins then -1 else 0;
    var itemsPts := if r.mostItemsUsed then 1 else 0;
    var spacesPts := if r.mostSpacesTravelled then 1 else 0;
    Breakdown(placementPts, bonusStarPts, coinThresholdPts, coinMostPts, coinLeastPts, itemsPts, spacesPts,
      placementPts + bonusStarPts + coinThresholdPts + coinMostPts + coinLeastPts + itemsPts + spacesPts)
  }

  /** The breakdown of player p in game g, for the roster `players`. */
  function BreakdownOf(rules: Rules, g: Game, players: seq<Player>, p: Player): Breakdown
    requires ValidRules(rules) && |players| > 0 && Covers(g.results, players) && p in g.results
  {
    PlayerBreakdown(rules, g.results[p], MaxCoins(g.results, players), MinCoins(g.results, players))
  }

  /** The seven itemised components add up to the base total. */
  ghost predicate Itemised(b: Breakdown) {
    b.baseTotal == b.placementPts + b.bonusStarPts + b.coinThresholdPts
      + b.coinMostPts + b.coinLeastPts + b.itemsPts + b.spacesPts
  }

  /**
   * The per-rule breakdown of one game for every roster player. Most coins
   * earn 2 for every player tied at a positive maximum; least coins cost 1
   * for every player tied at the minimum.
   */
  method ComputeGamePointsBreakdown(rules: Rules, g: Game, players: seq<Player>)
    returns (breakdown: map<Player, Breakdown>)
    requires ValidRules(rules)
    requires |players| > 0 && Covers(g.results, players)
    ensures breakdown.Keys == Elems(players)
    ensures forall p :: p in breakdown ==> breakdown[p] == BreakdownOf(rules, g, players, p)
    ensures forall p :: p in breakdown ==> Itemised(breakdown[p])
    ensures forall p :: p in breakdown ==>
      (breakdown[p].coinMostPts == 2 <==>
        g.results[p].coins > 0 && forall q :: q in players ==> g.results[q].coins <= g.results[p].coins)
    ensures forall p :: p in breakdown ==> breakdown[p].coinMostPts in {0, 2}
    ensures forall p :: p in breakdown ==>
      (breakdown[p].coinLeastPts == -1 <==> forall q :: q in players ==> g.results[p].coins <= g.results[q].coins)
    ensures forall p :: p in breakdown ==> breakdown[p].coinLeastPts in {-1, 0}
    ensures exists p :: p in breakdown && breakdown[p].coinLeastPts == -1
    ensures forall p :: p in breakdown ==>
      breakdown[p].coinThresholdPts == ThresholdUnits(rules, g.results[p].coins) * rules.coinThresholdPoints
    ensures forall p :: p in breakdown ==>
      breakdown[p].itemsPts == (if g.results[p].mostItemsUsed then 1 else 0)
      && breakdown[p].spacesPts == (if g.results[p].mostSpacesTravelled then 1 else 0)
  {
    var results := g.results;
    var maxCoins := MaxCoins(results, players);
    var minCoins := MinCoins(results, players);
    breakdown := map[];
    for k := 0 to |players|
      invariant breakdown.Keys == Elems(players[..k])
      invariant forall p :: p in breakdown ==> breakdown[p] == BreakdownOf(rules, g, players, p)
    {
      var p := players[k];
      breakdown := breakdown[p := PlayerBreakdown(rules, results[p], maxCoins, minCoins)];
      assert players[..k + 1] == players[..k] + [p];
    }
    assert players[..|players|] == players;
    forall p | p in breakdown
      ensures Itemised(breakdown[p])
      ensures breakdown[p].coinMostPts == 2 <==>
        g.results[p].coins > 0 && forall q :: q in players ==> g.results[q].coins <= g.results[p].coins
      ensures breakdown[p].coinMostPts in {0, 2}
      ensures breakdown[p].coinLeastPts == -1 <==> forall q :: q in players ==> g.results[p].coins <= g.results[q].coins
      ensures breakdown[p].coinLeastPts in {-1, 0}
    {
      BreakdownOfFacts(rules, g, players, p);
    }
    var least :| least in players && results[least].coins == minCoins;
    assert breakdown[least].coinLeastPts == -1;
  }

  /** The coin-rank parts of one player's breakdown, stated against the whole roster. */
  lemma {:induction false} BreakdownOfFacts(rules: Rules, g: Game, players: seq<Player>, p: Player)
    requires ValidRules(rules) && |players| > 0 && Covers(g.results, players) && p in players
    ensures Itemised(BreakdownOf(rules, g, players, p))
    ensures BreakdownOf(rules, g, players, p).coinMostPts == 2 <==>
      g.results[p].coins > 0 && forall q :: q in players ==> g.results[q].coins <= g.results[p].coins
    ensures BreakdownOf(rules, g, players, p).coinMostPts in {0, 2}
    ensures BreakdownOf(rules, g, players, p).coinLeastPts == -1 <==>
      forall q :: q in players ==> g.results[p].coins <= g.results[q].coins
    ensures BreakdownOf(rules, g, players, p).coinLeastPts in {-1, 0}
  {
    var maxCoins := MaxCoins(g.results, players);
    var minCoins := MinCoins(g.results, players);
    if forall q :: q in players ==> g.results[p].coins <= g.results[q].coins {
      var w :| w in players && g.results[w].coins == minCoins;
    }
    if forall q :: q in players ==> g.results[q].coins <= g.results[p].coins {
      var w :| w in players && g.results[w].coins == maxCoins;
    }
  }

  // ---------- Ranking ----------

  /** The players with strictly more points than v. */
  ghost function Above(totals: map<Player, int>, v: int): set<Player> {
    set q | q in totals && totals[q] > v
  }

  /** Standard competition rank: one more than the number of players with strictly more points. */
  ghost function Rank(totals: map<Player, int>, p: Player): int
    requires p in totals
  {
    1 + |Above(totals, totals[p])|
  }

  /** The sort key that orders players by points, highest first. */
  function ByPointsDescending(totals: map<Player, int>): Player -> int {
    p => if p in totals then -totals[p] else 0
  }

  /** `order` lists players of `totals` by points, highest first. */
  ghost predicate Descending(totals: map<Player, int>, order: seq<Player>) {
    && (forall i :: 0 <= i < |order| ==> order[i] in totals)
    && (forall i, j :: 0 <= i < j < |order| ==> totals[order[i]] >= totals[order[j]])
  }

  /** Every rank lies between 1 and the number of players. */
  lemma {:induction false} RankBounds(totals: map<Player, int>, p: Player)
    requires p in totals
    ensures 1 <= Rank(totals, p) <= |totals|
  {
    var above := Above(totals, totals[p]);
    assert above <= totals.Keys - {p};
    SubsetCard(above, totals.Keys - {p});
    assert |totals.Keys - {p}| == |totals| - 1;
  }

  lemma {:induction false} SubsetCard<T>(a: set<T>, b: set<T>)
    requires a <= b
    ensures |a| <= |b|
    decreases |b|
  {
    if a != {} {
      var x :| x in a;
      SubsetCard(a - {x}, b - {x});
    }
  }

  lemma {:induction false} StrictSubsetCard<T>(a: set<T>, b: set<T>, x: T)
    requires a <= b && x in b && x !in a
    ensures |a| < |b|
  {
    SubsetCard(a, b - {x});
  }

  /**
   * Ranks follow points in both directions: equal points give equal ranks,
   * and strictly more points give a strictly better (smaller) rank.
   */
  lemma {:induction false} RankOrder(totals: map<Player, int>, p: Player, q: Player)
    requires p in totals && q in totals
    ensures totals[p] > totals[q] <==> Rank(totals, p) < Rank(totals, q)
    ensures totals[p] == totals[q] <==> Rank(totals, p) == Rank(totals, q)
  {
    if totals[p] > totals[q] {
      StrictSubsetCard(Above(totals, totals[p]), Above(totals, totals[q]), p);
    } else if totals[p] < totals[q] {
      StrictSubsetCard(Above(totals, totals[q]), Above(totals, totals[p]), q);
    }
  }

  /**
   * In a list sorted by points (highest first) holding each player once, the
   * first player with a given number of points sits at index rank - 1.
   */
  lemma {:induction false} RankIsFirstIndex(totals: map<Player, int>, order: seq<Player>, i: int)
    requires Descending(totals, order) && Distinct(order)
    requires Elems(order) == totals.Keys
    requires 0 <= i < |order|
    requires i == 0 || totals[order[i - 1]] != totals[order[i]]
    ensures Rank(totals, order[i]) == i + 1
  {
    var v := totals[order[i]];
    forall q | q in Above(totals, v) ensures q in Elems(order[..i]) {
      var j :| 0 <= j < |order| && order[j] == q;
      assert j < i;
      assert order[..i][j] == q;
    }
    forall q | q in Elems(order[..i]) ensures q in Above(totals, v) {
      var j :| 0 <= j < i && order[..i][j] == q;
      assert totals[order[j]] >= totals[order[i - 1]] >= totals[order[i]];
    }
    assert Above(totals, v) == Elems(order[..i]);
    DistinctElemsCount(order[..i]);
  }

  /**
   * The rank the walk over `order` hands out at position i (0-based): the
   * first player, and any player whose points differ from the previous
   * player's, takes its 1-based position; a tied player repeats the rank of
   * the player before it.
   */
  ghost function WalkRank(totals: map<Player, int>, order: seq<Player>, i: nat): int
    requires i < |order|
    requires forall k :: 0 <= k < |order| ==> order[k] in totals
  {
    if i == 0 then 1
    else if totals[order[i - 1]] != totals[order[i]] then i + 1
    else WalkRank(totals, order, i - 1)
  }

  /**
   * On a list sorted by points (highest first) holding every player once,
   * the rank the walk hands out is the standard competition rank.
   */
  lemma {:induction false} WalkRankIsRank(totals: map<Player, int>, order: seq<Player>, i: nat)
    requires Descending(totals, order) && Distinct(order)
    requires Elems(order) == totals.Keys
    requires i < |order|
    ensures WalkRank(totals, order, i) == Rank(totals, order[i])
  {
    if i == 0 || totals[order[i - 1]] != totals[order[i]] {
      RankIsFirstIndex(totals, order, i);
    } else {
      WalkRankIsRank(totals, order, i - 1);
    }
  }

  /** The keys of a map, listed once each in some order. */
  method KeysInSomeOrder(totals: map<Player, int>) returns (items: seq<Player>)
    ensures Distinct(items)
    ensures Elems(items) == totals.Keys
  {
    items := [];
    var pending := totals.Keys;
    while pending != {}
      invariant Distinct(items)
      invariant Elems(items) + pending == totals.Keys && Elems(items) !! pending
      decreases pending
    {
      var p :| p in pending;
      items := items + [p];
      pending := pending - {p};
    }
  }

  /** Ascending by negated points is descending by points. */
  lemma {:induction false} DescendingFromKey(totals: map<Player, int>, items: seq<Player>, sorted: seq<Player>)
    requires Elems(items) == totals.Keys
    requires multiset(sorted) == multiset(items)
    requires SortedBy(sorted, ByPointsDescending(totals))
    ensures Elems(sorted) == totals.Keys
    ensures Descending(totals, sorted)
  {
    var key := ByPointsDescending(totals);
    forall x ensures x in sorted <==> x in items {
      assert x in sorted <==> x in multiset(sorted);
      assert x in items <==> x in multiset(items);
    }
    forall i, j | 0 <= i < j < |sorted| ensures totals[sorted[i]] >= totals[sorted[j]] {
      assert key(sorted[i]) <= key(sorted[j]);
    }
  }

  /** The roster sorted by points, highest first (Python's stable sort on the negated total). */
  method SortedByPoints(totals: map<Player, int>) returns (sortedPlayers: seq<Player>)
    ensures Descending(totals, sortedPlayers)
    ensures Distinct(sortedPlayers)
    ensures Elems(sortedPlayers) == totals.Keys
  {
    var items := KeysInSomeOrder(totals);
    var key := ByPointsDescending(totals);
    sortedPlayers := SortBy(items, key);
    SortKeepsDistinct(items, key);
    DescendingFromKey(totals, items, sortedPlayers);
  }

  /**
   * Standard competition ranking (1, 2, 2, 4): players sorted by points,
   * highest first; a player whose points differ from the previous player's
   * takes their 1-based position as rank, a tied player repeats the rank.
   */
  method AssignRanks(totals: map<Player, int>) returns (ranks: map<Player, int>)
    ensures ranks.Keys == totals.Keys
    ensures forall p :: p in ranks ==> ranks[p] == Rank(totals, p)
    ensures forall p :: p in ranks ==> 1 <= ranks[p] <= |totals|
  {
    var sortedPlayers := SortedByPoints(totals);

    FirstOccurrences(sortedPlayers);
    ranks := RankWalk(totals, sortedPlayers);
    RanksComplete(totals, sortedPlayers, ranks);
  }

  /**
   * The walk down the sorted list, carrying the previous player's points
   * and rank: a player whose points differ takes its 1-based position as
   * rank, a tied player repeats the previous rank.
   */
  method RankWalk(totals: map<Player, int>, sortedPlayers: seq<Player>) returns (ranks: map<Player, int>)
    requires forall k :: 0 <= k < |sortedPlayers| ==> sortedPlayers[k] in totals
    requires forall k :: 0 <= k < |sortedPlayers| ==> sortedPlayers[k] !in sortedPlayers[..k]
    ensures forall p :: p in ranks ==> p in totals
    ensures forall j :: 0 <= j < |sortedPlayers| ==> sortedPlayers[j] in ranks
    ensures forall j {:trigger ranks[sortedPlayers[j]]} :: 0 <= j < |sortedPlayers| ==> ranks[sortedPlayers[j]] == WalkRank(totals, sortedPlayers, j)
  {
    ranks := map[];
    var lastPoints: Option<int> := None;
    var lastRank := 0;
    var idx := 1;
    while idx <= |sortedPlayers|
      invariant 1 <= idx <= |sortedPlayers| + 1
      invariant forall p :: p in ranks ==> p in totals
      invariant forall j :: 0 <= j < idx - 1 ==> sortedPlayers[j] in ranks
      invariant forall j {:trigger ranks[sortedPlayers[j]]} :: 0 <= j < idx - 1 ==> ranks[sortedPlayers[j]] == WalkRank(totals, sortedPlayers, j)
      invariant idx == 1 ==> lastPoints == None
      invariant idx > 1 ==> lastPoints == Some(totals[sortedPlayers[idx - 2]]) && lastRank == WalkRank(totals, sortedPlayers, idx - 2)
    {
      var player := sortedPlayers[idx - 1];
      var pts := totals[player];
      var rank;
      if lastPoints != Some(pts) {
        rank := idx;
        lastRank := rank;
        lastPoints := Some(pts);
      } else {
        rank := lastRank;
      }
      ranks := ranks[player := rank];
      idx := idx + 1;
    }
  }

  /** After the walk every player has the rank the walk gave it, which is its competition rank. */
  lemma {:induction false} RanksComplete(totals: map<Player, int>, order: seq<Player>, ranks: map<Player, int>)
    requires Descending(totals, order) && Distinct(order)
    requires Elems(order) == totals.Keys
    requires forall p :: p in ranks ==> p in totals
    requires forall j :: 0 <= j < |order| ==> order[j] in ranks
    requires forall j {:trigger ranks[order[j]]} :: 0 <= j < |order| ==> ranks[order[j]] == WalkRank(totals, order, j)
    ensures ranks.Keys == totals.Keys
    ensures forall p :: p in ranks ==> ranks[p] == Rank(totals, p)
    ensures forall p :: p in ranks ==> 1 <= ranks[p] <= |totals|
  {
    forall p | p in ranks ensures ranks[p] == Rank(totals, p) && 1 <= ranks[p] <= |totals| {
      var j :| 0 <= j < |order| && order[j] == p;
      WalkRankIsRank(totals, order, j);
      RankBounds(totals, p);
    }
  }

  // ---------- The two rule tables side by side ----------

  /** Rules whose constants repeat the score-entry page's table. */
  predicate SameTableAsScoring(rules: Rules) {
    && rules.placementPoints == map[1 := 10, 2 := 6, 3 := 3, 4 := 0]
    && rules.bonusStarPoints == 2
    && rules.coinThresholdPoints == 1
    && rules.coinThreshold == 30
    && rules.coinThresholdMax == 3
  }

  /**
   * With the same constants, the two tables agree on a result without
   * minigame, item or space credit whose coin flags were derived as the
   * breakdown derives them (most coins only at a positive maximum); the
   * breakdown simply adds the item and space points on top.
   */
  lemma {:induction false} BreakdownMatchesScoringTable(rules: Rules, r: PlayerResult, maxCoins: int, minCoins: int)
    requires ValidRules(rules) && SameTableAsScoring(rules)
    requires r.mostCoins == (r.coins == maxCoins && maxCoins > 0)
    requires r.leastCoins == (r.coins == minCoins)
    ensures PlayerBreakdown(rules, r, maxCoins, minCoins).baseTotal
      == Scoring.RecordPoints(r) - Scoring.MinigamePoints(r.minigameRank)
         + (if r.mostItemsUsed then 1 else 0) + (if r.mostSpacesTravelled then 1 else 0)
  {
  }
}
