/**
 * The game records a season is made of: one entry per played game, keyed
 * by a game id, with each player's raw result.
 */
module Records {
  import opened Seqs
  import opened Sorting

  type Player = string

  /**
   * One player's recorded outcome in one game. `minigameRank` is the raw
   * string the data-entry form stores ("none", "second" or "most"); the
   * item and space flags are false when a record does not carry them.
   */
  datatype PlayerResult = PlayerResult(
    placement: int,
    bonusStars: int,
    coins: int,
    mostCoins: bool,
    leastCoins: bool,
    minigameRank: string,
    mostItemsUsed: bool,
    mostSpacesTravelled: bool)

  datatype Game = Game(gameId: int, results: map<Player, PlayerResult>)

  function GameId(g: Game): int {
    g.gameId
  }

  /** No two games of the season share a game id. */
  ghost predicate DistinctIds(games: seq<Game>) {
    KeysDistinct(games, GameId)
  }

  /** The season in play order: the games stably sorted by game id. */
  function SeasonOrder(games: seq<Game>): (r: seq<Game>)
    ensures multiset(r) == multiset(games)
    ensures SortedBy(r, GameId)
  {
    SortBy(games, GameId)
  }

  /** With distinct game ids, play order is strictly increasing in game id. */
  lemma {:induction false} SeasonOrderStrictlyIncreasing(games: seq<Game>)
    requires DistinctIds(games)
    ensures DistinctIds(SeasonOrder(games))
    ensures forall i, j :: 0 <= i < j < |SeasonOrder(games)| ==>
      SeasonOrder(games)[i].gameId < SeasonOrder(games)[j].gameId
  {
    SortKeepsKeysDistinct(games, GameId);
  }

  /** Putting a season that is already in play order into play order changes nothing. */
  lemma {:induction false} SeasonOrderIdempotent(games: seq<Game>)
    ensures SeasonOrder(SeasonOrder(games)) == SeasonOrder(games)
  {
    SortSortedIsIdentity(SeasonOrder(games), GameId);
  }
}
