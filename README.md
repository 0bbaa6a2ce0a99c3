# Mario Party season scoring, modelled in Dafny

This project models the scoring engine of a four-player Mario Party season
tracker. The model covers three parts:

- **Per-game points.** `scoring.py` has placement, bonus-star, coin and
  minigame points and a per-player total. `compute_game_points_breakdown` in
  `scoreboard.py` itemises a game's points into seven components. It derives
  most and least coins from the game itself and adds item and space bonuses.
- **Consistency bonuses** (`consistency.py`). The games are sorted by game id
  and each player's placement timeline is built from them. Back-to-back top-2
  finishes earn +2 on the second game. Three straight top-2 finishes earn +3
  on the third game, stacking with the +2. Each of two fixed five-entry
  windows (entries 1-5 and 6-10) earns +2 on its last entry when it holds no
  4th place. The result is each game's bonus per player and each player's
  season sum.
- **Standings** (`scoreboard.py`):
  - `assign_ranks` gives standard competition ranks (1, 2, 2, 4).
  - The non-display part of `scoreboard_page` sums base totals, counts wins
    and podiums, and forms final totals and ranks.
  - It also builds the per-game rows and attaches each game's consistency
    bonus and game total to them.

Modules:

| module | file | what it holds |
|---|---|---|
| `Wrappers` | `wrappers.dfy` | `Option`, for Python's `None` |
| `Seqs` | `seqs.dfy` | sequences without repeats, with distinct keys, and the set of a sequence's elements |
| `Sorting` | `sorting.dfy` | a stable insertion sort by an integer key, standing for Python's `sorted(..., key=...)` |
| `Sums` | `sums.dfy` | sums over sequences and over map values (`sum(d.values())`) |
| `Records` | `records.dfy` | players, results, games and the season's play order |
| `Scoring` | `scoring.dfy` | `scoring.py` |
| `Consistency` | `consistency.dfy` | `consistency.py` |
| `Scoreboard` | `scoreboard.dfy` | `compute_game_points_breakdown` and `assign_ranks` |
| `Standings` | `standings.dfy` | the counting part of `scoreboard_page` |

Each property is stated twice:

- **Against the code.** Loops that fill dictionaries become methods with
  loop invariants. Each such method is proved against a specification
  function: `Timeline`, `BonusAt`, `Rank`, `BaseTotal`, `Wins`, `Podiums`,
  `SeasonRows`, `SeasonTable` and `StandingOf`.
- **About the specification.** Lemmas state the properties of those
  functions.

`scoring.py` uses the placement table {1: 10, 2: 6, 3: 3, 4: 0}. The rules
page describes an 8/6/4/2 table with an "effective placement". The model
follows the code. The scoreboard's own constants come from
`score_calculator`, which is not part of this model. They are the `Rules`
parameter, and only two facts are assumed of them: `COIN_THRESHOLD > 0`
and `COIN_THRESHOLD_MAX >= 0`.

## Model

| member | source | states |
|---|---|---|
| Scoring.PlacementPoints | scoring.py:3-5 | the result is one of 10, 6, 3, 0, and it is positive exactly for places 1, 2 and 3 (so 4 and any unknown place give 0) |
| Scoring.BonusStarPoints | scoring.py:7-8 | the result is exactly twice the star count: even, half of it is the count, non-negative for non-negative counts |
| Scoring.CoinThreshold | scoring.py:16 | `min(coins // 30, 3)` lies in [0, 3] for coins >= 0; it is 3 exactly from 90 coins on; below the cap r full thirties fit, so 65 coins give 2 |
| Scoring.CoinPoints | scoring.py:10-17 | coin points lie in [-1, 5] for coins >= 0; above the threshold part they are +2 exactly for most-and-not-least, -1 exactly for least-and-not-most, 0 with neither flag and +1 with both |
| Scoring.MinigamePoints | scoring.py:19-24 | 3 exactly for "most", 1 exactly for "second", 0 otherwise |
| Scoring.RecordPointsBounds | scoring.py:35-40 | a result with a place 1-4 and no negative counts is worth between -1 and 18 points plus two per bonus star |
| Scoring.PlacementPointsDecrease | scoring.py:3-5 | a strictly better place among 1-4 is worth strictly more placement points |
| Scoring.ComputeGamePoints | scoring.py:26-42 | the totals hold exactly the players of `results`, and each total is placement + star + coin + minigame points of that player's own record |
| Records.SeasonOrder | scoreboard.py:170 | the play order is a permutation of the games, sorted by game id |
| Records.SeasonOrderStrictlyIncreasing | consistency.py:20 | with distinct game ids, game ids strictly increase along the play order |
| Records.SeasonOrderIdempotent | scoreboard.py:211-213 | re-sorting a season already in play order (as the consistency pass does) changes nothing |
| Sorting.InsertBy | consistency.py:20 | inserting into a key-sorted sequence keeps it sorted, one longer, and adds exactly that element to its multiset |
| Sorting.SortBy | scoreboard.py:100-102 | the stable sort's result is sorted by the key, of the same length, and a permutation of the input |
| Sorting.SortKeepsDistinct | scoreboard.py:100-102 | sorting a list without repeats gives a list without repeats |
| Sorting.SortKeepsKeysDistinct | consistency.py:20 | sorting keeps distinct keys distinct |
| Sorting.SortSortedIsIdentity | scoreboard.py:170 | sorting a sorted list returns it unchanged (the sort is stable) |
| Sums.SumValues | consistency.py:77 | the loop over a map's keys returns the sum of its values |
| Sums.MapSumOfEnumeration | consistency.py:76-78 | when a list of distinct keys and a list of values enumerate a map, the map's values sum to the list's sum |
| Consistency.BonusAt | consistency.py:42-73 | every per-game bonus lies in [0, 7], only the 5th and 10th entries can exceed 5, and the first entry gets nothing |
| Consistency.TimelineEntries | consistency.py:23-29 | an entry is on p's timeline exactly when some game holds p's result with that id and placement: only games where p has a placement enter |
| Consistency.TimelineAscending | consistency.py:20-29 | when the games are in strictly increasing id order, every timeline is in strictly increasing id order |
| Consistency.TimelineOfFullRoster | consistency.py:23-29 | when p plays every game, the timeline has one entry per game, in game order, with that game's id and placement |
| Consistency.StackedStreakExample | consistency.py:44-57 | placements 2, 1, 2 give bonuses 0, 2, 5: the +3 stacks with the +2 |
| Consistency.BrokenStreakExample | consistency.py:44-57 | placements 1, 2, 3 give bonuses 0, 2, 0 |
| Consistency.WindowNeedsFullWindow | consistency.py:61-73 | a window bonus is awarded exactly on the 5th entry when entries 1-5 have no 4th place, or on the 10th when entries 6-10 have none; fewer than 5 entries give none |
| Consistency.TotalBonusBounds | consistency.py:44-78 | a season total is non-negative and at most 5 per game plus 2 per completed window |
| Consistency.AwardedSum | consistency.py:76-78 | the sum of a player's awarded buckets equals the sum of the timeline's per-game bonuses |
| Consistency.BucketsAwarded | consistency.py:32-73 | the buckets built entry by entry hold one bucket per timeline game, each with that game's bonus |
| Consistency.AwardedIsBuckets | consistency.py:32-73 | any bucket map with one bucket per timeline game holding that game's bonus is that map |
| Consistency.AddBackToBack | consistency.py:44-48 | the loop keeps the bucket keys and adds exactly `BackToBack(t, k)` to the bucket of every entry k: +2 when entries k-1 and k are both top-2; buckets of games not on the timeline are unchanged |
| Consistency.AddThreeStraight | consistency.py:52-57 | the loop keeps the keys and adds exactly `ThreeStraight(t, k)`: +3 when entries k-2, k-1 and k are all top-2; buckets of games not on the timeline are unchanged |
| Consistency.AddWindows | consistency.py:61-73 | the two checks keep the keys and add exactly `WindowBonus(t, k)` to every entry's bucket; buckets of games not on the timeline are unchanged |
| Consistency.AddBonuses | consistency.py:42-73 | the three rules together add exactly `BonusAt(t, i)` to the bucket of every entry i and leave buckets of games not on the timeline unchanged |
| Consistency.BuildTimelines | consistency.py:23-29 | the nested game/player loop leaves every roster player with exactly `Timeline(games, p)` |
| Consistency.AwardPlayer | consistency.py:32-73 | starting from zero buckets, a player's buckets end awarded; a player without placements is skipped and keeps an empty map |
| Consistency.AwardTimelines | consistency.py:32-73 | after the player loop every roster player's buckets are awarded for their timeline |
| Consistency.SumTotals | consistency.py:76-78 | every roster player's total is the sum of their per-game buckets |
| Consistency.ComputeConsistencyBonuses | consistency.py:3-80 | for every roster player: per-game buckets awarded for the timeline of the sorted season, and a total that is both the sum of those buckets and the sum of the timeline's bonuses (0 and an empty map without placements) |
| Scoreboard.MaxCoins | scoreboard.py:38-39 | the game maximum is some roster player's coins and no roster player has more |
| Scoreboard.MinCoins | scoreboard.py:38-40 | the game minimum is some roster player's coins and no roster player has fewer |
| Scoreboard.ThresholdUnits | scoreboard.py:55 | `min(coins // COIN_THRESHOLD, COIN_THRESHOLD_MAX)` is one of the two, is at most each, and lies in [0, COIN_THRESHOLD_MAX] for coins >= 0 |
| Scoreboard.ComputeGamePointsBreakdown | scoreboard.py:18-91 | one breakdown per roster player; base_total is the sum of the seven components; most-coins is 2 exactly at a positive game maximum (all tied players), else 0; least-coins is -1 exactly at the game minimum, else 0, and someone always gets it; threshold, item and space points as the formulas say |
| Scoreboard.BreakdownOfFacts | scoreboard.py:38-78 | one player's breakdown: itemised sum, and the most/least coin points stated against every roster player's coins |
| Scoreboard.RankBounds | scoreboard.py:94-118 | every competition rank lies in 1..n |
| Scoreboard.RankOrder | scoreboard.py:94-118 | strictly more points give a strictly smaller rank and equal points give equal ranks, both as if-and-only-if |
| Scoreboard.RankIsFirstIndex | scoreboard.py:108-112 | in the list sorted by points, the first player with a given total sits at 0-based index rank - 1 |
| Scoreboard.WalkRankIsRank | scoreboard.py:108-116 | the rank the walk hands out at each position of the sorted list is 1 + the number of players with strictly more points |
| Scoreboard.SortedByPoints | scoreboard.py:100-102 | the sorted list holds every player once, highest points first |
| Scoreboard.RankWalk | scoreboard.py:104-118 | the last_points/last_rank walk gives each listed player the walk's rank: its position when its points differ from the previous player's, else the previous rank |
| Scoreboard.RanksComplete | scoreboard.py:94-118 | after the walk over a complete sorted list, every player's rank is its competition rank |
| Scoreboard.AssignRanks | scoreboard.py:94-118 | ranks exist for exactly the given players, each is 1 + the number of players with strictly more points, and each lies in 1..n |
| Scoreboard.BreakdownMatchesScoringTable | scoreboard.py:38-78 | with scoring.py's constants and coin flags derived as the breakdown derives them, the breakdown's base total is scoring.py's total without minigame points, plus the item and space points |
| Standings.WinsWithinPodiums | scoreboard.py:190-193 | wins <= podiums <= number of games |
| Standings.SeasonBaseIsBaseTotal | scoreboard.py:183-187 | the base tally built game by game holds each roster player's summed base totals |
| Standings.SeasonWinsAreWins | scoreboard.py:190-191 | the win tally built game by game holds each player's number of first places |
| Standings.SeasonPodiumsArePodiums | scoreboard.py:192-193 | the podium tally built game by game holds each player's number of places in {1, 2, 3} |
| Standings.AddEachPointwise | scoreboard.py:183-187 | adding to each of distinct players in turn: the first k gain their increment, the others keep their value |
| Standings.CountEachPointwise | scoreboard.py:189-193 | counting each of distinct players in turn: the marked ones among the first k gain 1, no one else changes |
| Standings.TallyPlayer | scoreboard.py:184-208 | one player's turn: base total grows by the breakdown's base total, a first place counts a win, a place in {1, 2, 3} counts a podium, the player's row is appended |
| Standings.AddGame | scoreboard.py:183-208 | the player loop of one game leaves the tallies and rows of every roster player updated in roster order |
| Standings.PlayGame | scoreboard.py:180-208 | one game: its breakdown table is computed and folded into the tallies and rows |
| Standings.AccumulateBase | scoreboard.py:162-208 | after the game loop: base totals, wins and podiums of every roster player over the season, and the season's rows |
| Standings.SeasonTallies | scoreboard.py:162-208 | the game-by-game tallies over the whole season are the base totals, wins and podiums per player, and the rows are the season's rows |
| Standings.GameRowsAt | scoreboard.py:183-208 | a game's rows: the j-th is the j-th roster player's row |
| Standings.SeasonRowsLength | scoreboard.py:176-208 | the season has n rows per game, n being the roster size |
| Standings.SeasonRowAt | scoreboard.py:176-208 | the row at position i * n + j holds game i's id, player j, that player's placement and breakdown in game i |
| Standings.OffsetIsProduct | scoreboard.py:176-208 | game i's rows start at i * n |
| Standings.AttachConsistency | scoreboard.py:249-254 | every row keeps its base, gets its player's bucket for its game (0 when missing), and a game total of base total + bonus |
| Standings.BucketLookup | scoreboard.py:252 | `per_game_consistency.get(p, {}).get(gid, 0)` on awarded buckets is the bonus the timeline awards that game |
| Standings.AttachedIsTable | scoreboard.py:249-254 | attaching the consistency pass's buckets to the season's rows gives each row the bonus its player's timeline awards on its game |
| Standings.TableAt | scoreboard.py:249-254 | the table has n rows per game; row i * n + j is game i and player j with its bonus and game total |
| Standings.FinalTotalsMatch | scoreboard.py:216-218 | the final totals are each player's base total plus consistency total |
| Standings.RankStandings | scoreboard.py:216-234 | one standings line per roster player, in roster order: competition rank of the final total, wins, podiums, base points, consistency bonus and total |
| Standings.StandingFacts | scoreboard.py:216-234 | a line's rank lies in 1..n, wins <= podiums <= games, and its total is the sum of the player's per-game totals |
| Standings.StandingsOrder | scoreboard.py:216-234 | more total points give a strictly better rank and equal totals equal ranks, both as if-and-only-if |
| Standings.GameTotalsAddUp | scoreboard.py:216-218 | a player's per-game totals (base + that game's bonus) add up to the final total: season base points plus season bonus |
| Standings.GameTotalsAt | scoreboard.py:254 | a row's game total is the player's entry for that game among the per-game totals |
| Standings.GameTotalsSum | scoreboard.py:249-254 | over a run of games that the timeline follows, the per-game totals add up to base points plus the bonuses of that many entries |
| Standings.BuildStandings | scoreboard.py:222-234 | line j holds player j's rank, wins, podiums, base points, consistency bonus (0 when missing) and final total |
| Standings.SeasonStandings | scoreboard.py:162-254 | over the season in play order: one standings line per roster player equal to the player's specified line, and the per-game table equal to the season's table |

## Left out

- The Streamlit UI: headers, notices, data frames, the chart (`build_streamlit_cumulative_chart`) and the display sorts of the standings (by rank and player) and of the per-game table (by game id and player). The model returns the standings in roster order and the rows in play order.
- Session state and persistence (`state.py`, `storage.py`, `secret.py`, `summary_storage.py`). These are file and network I/O.
- The coin-flag derivation in `app.py` (lines 65-72) sits in a button handler. `Scoreboard.BreakdownMatchesScoringTable` relates the two point tables under the scoreboard's own derivation instead.
- Rules that exist only as prose on the rules page: the Safety Shell handicap and effective placement, voided games, dropping the two lowest games, and the tie-break order.
- The `score_calculator` module is not part of this model. Its constants are the `Rules` parameter.
- Input validation. The source does none. The model states its assumptions as preconditions:
  - a non-empty roster, because `max()` of an empty list raises;
  - a roster without repeats. A repeated name would have its base total, wins and podiums added twice per game (scoreboard.py:183-193). It would also get every game twice on its timeline (consistency.py:27-29), where the duplicates fire the back-to-back bonus;
  - every roster player has a result in every game, because `results[p]` raises otherwise;
  - distinct game ids, which the timeline properties need.
- The placement guard `"placement" in results[p]` in consistency.py:28. Every result the app writes carries a placement, so the model checks only that the player has a result.
- `int(...)` conversions. Counts and placements are integers in the model.
- Optional keys:
  - `get("most_items_used", False)` and `get("most_spaces_travelled", False)` are boolean fields, false when absent.
  - `get("game_id", 0)` and `get("results", {})` assume every game has an id and results.
- The early return of `scoreboard_page` for an empty season, which only shows a notice.
- In-place mutation of the per-game rows (scoreboard.py:249-254). `Standings.AttachConsistency` builds new rows that carry the base row, the bonus and the game total. No other code sees the mutated dictionaries.
- Python's `sorted` is the stable insertion sort `Sorting.SortBy`. The descending sort of `assign_ranks` is an ascending sort on the negated total, and ties then keep their input order. The input order of a dictionary's items is left unspecified (`Scoreboard.KeysInSomeOrder`). Ranks do not depend on it.
