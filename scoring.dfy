/**
 * The per-game point rules of the score-entry page: placement, bonus-star,
 * coin and minigame points and their per-player total. This table has no
 * item or space bonuses.
 */
module Scoring {
  import opened Records

  /** Points for a finishing place: 10, 6, 3 and 0 for places 1 to 4, and 0 for any other value. */
  function PlacementPoints(place: int): (r: int)
    ensures r in {0, 3, 6, 10}
    ensures r > 0 <==> place in {1, 2, 3}
  {
    match place
    case 1 => 10
    case 2 => 6
    case 3 => 3
    case _ => 0
  }

  /** Two points per bonus star. */
  function BonusStarPoints(stars: int): (r: int)
    ensures r % 2 == 0 && r / 2 == stars
    ensures stars >= 0 ==> r >= 0
  {
    stars * 2
  }

  /** One point per full 30 coins, at most three. */
  function CoinThreshold(coins: int): (r: int)
    ensures coins >= 0 ==> 0 <= r <= 3
    ensures r == 3 <==> coins >= 90
    ensures r < 3 ==> 30 * r <= coins < 30 * (r + 1)
  {
    if coins / 30 < 3 then coins / 30 else 3
  }

  /** Coin points: +2 for most coins, -1 for least coins, plus the threshold points. */
  function CoinPoints(coins: int, most: bool, least: bool): (r: int)
    ensures coins >= 0 ==> -1 <= r <= 5
    ensures r - CoinThreshold(coins) == 2 <==> most && !least
    ensures r - CoinThreshold(coins) == -1 <==> !most && least
    ensures !most && !least ==> r == CoinThreshold(coins)
    ensures most && least ==> r == CoinThreshold(coins) + 1
  {
    var fromMost := if most then 2 else 0;
    var fromLeast := if least then -1 else 0;
    fromMost + fromLeast + CoinThreshold(coins)
  }

  /** Minigame points: 3 for "most", 1 for "second", 0 for any other rank. */
  function MinigamePoints(rank: string): (r: int)
    ensures r in {0, 1, 3}
    ensures r == 3 <==> rank == "most"
    ensures r == 1 <==> rank == "second"
  {
    if rank == "most" then 3
    else if rank == "second" then 1
    else 0
  }

  /** A player's points for one game. */
  function RecordPoints(rec: PlayerResult): int {
    PlacementPoints(rec.placement)
    + BonusStarPoints(rec.bonusStars)
    + CoinPoints(rec.coins, rec.mostCoins, rec.leastCoins)
    + MinigamePoints(rec.minigameRank)
  }

  /** A result as the form can enter it: a place from 1 to 4, no negative counts. */
  ghost predicate WellFormed(rec: PlayerResult) {
    1 <= rec.placement <= 4 && rec.bonusStars >= 0 && rec.coins >= 0
  }

  /** A well-formed result is worth between -1 and 18 points plus two per bonus star. */
  lemma {:induction false} RecordPointsBounds(rec: PlayerResult)
    requires WellFormed(rec)
    ensures -1 <= RecordPoints(rec) <= 18 + 2 * rec.bonusStars
    ensures RecordPoints(rec) >= PlacementPoints(rec.placement) + 2 * rec.bonusStars - 1
  {
  }

  /** Finishing strictly better is worth strictly more placement points. */
  lemma {:induction false} PlacementPointsDecrease(better: int, worse: int)
    requires 1 <= better < worse <= 4
    ensures PlacementPoints(better) > PlacementPoints(worse)
  {
  }

  /** The points of every player of one game, each from that player's own result. */
  method ComputeGamePoints(results: map<Player, PlayerResult>) returns (totals: map<Player, int>)
    ensures totals.Keys == results.Keys
    ensures forall p :: p in results ==> totals[p] == RecordPoints(results[p])
  {
    totals := map[];
    var pending := results.Keys;
    while pending != {}
      invariant pending <= results.Keys
      invariant totals.Keys == results.Keys - pending
      invariant forall p :: p in totals ==> totals[p] == RecordPoints(results[p])
      decreases pending
    {
      var player :| player in pending;
      var rec := results[player];
      var base := PlacementPoints(rec.placement);
      var bonus := BonusStarPoints(rec.bonusStars);
      var coins := CoinPoints(rec.coins, rec.mostCoins, rec.leastCoins);
      var mini := MinigamePoints(rec.minigameRank);
      totals := totals[player := base + bonus + coins + mini];
      pending := pending - {player};
    }
  }
}
