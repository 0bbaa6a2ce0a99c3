/**
 * The scoreboard's season totals: each player's base points summed over
 * the games in play order, wins and podiums, the consistency bonus, the
 * final total and its rank, and the per-game rows with each game's share
 * of the consistency bonus.
 */
module Standings {
  import opened Seqs
  import opened Sums
  import opened Records
  import opened Consistency
  import opened Scoreboard

  /** Every game of the season holds a result for every roster player. */
  ghost predicate AllCover(games: seq<Game>, players: seq<Player>) {
    forall i :: 0 <= i < |games| ==> Covers(games[i].results, players)
  }

  /** Player p has a result in every game. */
  ghost predicate Plays(games: seq<Game>, p: Player) {
    forall i :: 0 <= i < |games| ==> p in games[i].results
  }

  /** Putting the season in play order keeps every game, so coverage carries over. */
  lemma {:induction false} SeasonCovers(games: seq<Game>, players: seq<Player>)
    requires AllCover(games, players)
    ensures AllCover(SeasonOrder(games), players)
  {
    forall i | 0 <= i < |SeasonOrder(games)| ensures Covers(SeasonOrder(games)[i].results, players) {
      assert SeasonOrder(games)[i] in multiset(SeasonOrder(games));
    }
  }

  // ---------- Season tallies ----------

  /** A player's base points over a run of games: the per-game base totals added up. */
  function BaseTotal(rules: Rules, games: seq<Game>, players: seq<Player>, p: Player): int
    requires ValidRules(rules) && |players| > 0 && AllCover(games, players) && p in players
  {
    if games == [] then 0
    else
      BaseTotal(rules, games[..|games| - 1], players, p) + BreakdownOf(rules, games[|games| - 1], players, p).baseTotal
  }

  /** One game's contribution to the win count: 1 for a first place. */
  function WinCount(r: PlayerResult): nat {
    if r.placement == 1 then 1 else 0
  }

  /** One game's contribution to the podium count: 1 for a place among 1, 2 and 3. */
  function PodiumCount(r: PlayerResult): nat {
    if r.placement in {1, 2, 3} then 1 else 0
  }

  /** The number of games p won (placement 1). */
  function Wins(games: seq<Game>, p: Player): nat
    requires Plays(games, p)
  {
    if games == [] then 0
    else
      Wins(games[..|games| - 1], p) + WinCount(games[|games| - 1].results[p])
  }

  /** The number of games p finished on the podium (placement 1, 2 or 3). */
  function Podiums(games: seq<Game>, p: Player): nat
    requires Plays(games, p)
  {
    if games == [] then 0
    else
      Podiums(games[..|games| - 1], p) + PodiumCount(games[|games| - 1].results[p])
  }

  /** Every win is a podium, and no player has more podiums than games. */
  lemma {:induction false} WinsWithinPodiums(games: seq<Game>, p: Player)
    requires Plays(games, p)
    ensures Wins(games, p) <= Podiums(games, p) <= |games|
  {
    if games != [] {
      WinsWithinPodiums(games[..|games| - 1], p);
    }
  }

  // ---------- Rows ----------

  /** One row of the per-game table before the consistency bonus is attached. */
  datatype BaseRow = BaseRow(gameId: int, player: Player, placement: int, breakdown: Breakdown)

  /** A per-game row with its consistency share and the game total. */
  datatype Row = Row(base: BaseRow, consistencyBonus: int, gameTotal: int)

  /** One line of the overall standings. */
  datatype Standing = Standing(
    rank: int,
    player: Player,
    wins: int,
    podiums: int,
    basePoints: int,
    consistencyBonus: int,
    totalPoints: int)

  /** The breakdown of every roster player in game g. */
  function BreakdownTable(rules: Rules, g: Game, players: seq<Player>): (table: map<Player, Breakdown>)
    requires ValidRules(rules) && |players| > 0 && Covers(g.results, players)
    ensures table.Keys == Elems(players)
  {
    map p | p in Elems(players) :: BreakdownOf(rules, g, players, p)
  }

  /** The row of player p in game g, given the game's breakdown table. */
  function RowOf(g: Game, breakdown: map<Player, Breakdown>, p: Player): BaseRow
    requires p in g.results && p in breakdown
  {
    BaseRow(g.gameId, p, g.results[p].placement, breakdown[p])
  }

  /** The rows of game g for the players `ps`, in that order. */
  function GameRows(g: Game, breakdown: map<Player, Breakdown>, ps: seq<Player>): seq<BaseRow>
    requires forall j :: 0 <= j < |ps| ==> ps[j] in g.results && ps[j] in breakdown
  {
    if ps == [] then []
    else
      GameRows(g, breakdown, ps[..|ps| - 1]) + [RowOf(g, breakdown, ps[|ps| - 1])]
  }

  /** The breakdown table of every game of a run, in order. */
  function Tables(rules: Rules, games: seq<Game>, players: seq<Player>): (tables: seq<map<Player, Breakdown>>)
    requires ValidRules(rules) && |players| > 0 && AllCover(games, players)
    ensures |tables| == |games|
  {
    seq(|games|, i requires 0 <= i < |games| => BreakdownTable(rules, games[i], players))
  }

  /** Every roster player has a result and a table entry in every game. */
  ghost predicate Fits(games: seq<Game>, tables: seq<map<Player, Breakdown>>, players: seq<Player>) {
    && |tables| == |games|
    && forall i, j :: 0 <= i < |games| && 0 <= j < |players| ==> players[j] in games[i].results && players[j] in tables[i]
  }

  /** The rows of the first k games, game by game and within a game in roster order. */
  function RowsOf(games: seq<Game>, tables: seq<map<Player, Breakdown>>, players: seq<Player>, k: nat): seq<BaseRow>
    requires Fits(games, tables, players) && k <= |games|
  {
    if k == 0 then []
    else RowsOf(games, tables, players, k - 1) + GameRows(games[k - 1], tables[k - 1], players)
  }

  /** The rows of a season: for every game in order, one row per roster player. */
  function SeasonRows(rules: Rules, games: seq<Game>, players: seq<Player>): seq<BaseRow>
    requires ValidRules(rules) && |players| > 0 && AllCover(games, players)
  {
    TablesFit(rules, games, players);
    RowsOf(games, Tables(rules, games, players), players, |games|)
  }

  /** The breakdown tables of a run of games hold every roster player. */
  lemma {:induction false} TablesFit(rules: Rules, games: seq<Game>, players: seq<Player>)
    requires ValidRules(rules) && |players| > 0 && AllCover(games, players)
    ensures Fits(games, Tables(rules, games, players), players)
    ensures forall i :: 0 <= i < |games| ==> Tables(rules, games, players)[i] == BreakdownTable(rules, games[i], players)
  {
  }

  /** A game's rows: the j-th is the row of the j-th listed player. */
  lemma {:induction false} GameRowsAt(g: Game, breakdown: map<Player, Breakdown>, ps: seq<Player>)
    requires forall j :: 0 <= j < |ps| ==> ps[j] in g.results && ps[j] in breakdown
    ensures |GameRows(g, breakdown, ps)| == |ps|
    ensures forall j :: 0 <= j < |ps| ==> GameRows(g, breakdown, ps)[j] == RowOf(g, breakdown, ps[j])
  {
    if ps != [] {
      GameRowsAt(g, breakdown, ps[..|ps| - 1]);
    }
  }

  /** Where the rows of game i start when every game has n rows: i * n. */
  function Offset(i: nat, n: nat): nat {
    if i == 0 then 0 else Offset(i - 1, n) + n
  }

  /** Later games start later: the rows of game i end no later than where game m starts. */
  lemma {:induction false} OffsetGrows(i: nat, m: nat, n: nat)
    requires i < m
    ensures Offset(i, n) + n <= Offset(m, n)
  {
    if i + 1 < m {
      OffsetGrows(i, m - 1, n);
    }
  }

  /** The first k games have n rows each, n being the roster size. */
  lemma {:induction false} RowsOfLength(games: seq<Game>, tables: seq<map<Player, Breakdown>>, players: seq<Player>, k: nat)
    requires Fits(games, tables, players) && k <= |games|
    ensures |RowsOf(games, tables, players, k)| == Offset(k, |players|)
  {
    if k > 0 {
      RowsOfLength(games, tables, players, k - 1);
      GameRowsAt(games[k - 1], tables[k - 1], players);
    }
  }

  /** Adding a game keeps the rows of the games before it where they were. */
  lemma {:induction false} RowsOfKeepsFront(games: seq<Game>, tables: seq<map<Player, Breakdown>>, players: seq<Player>, k: nat, x: nat)
    requires Fits(games, tables, players) && 0 < k <= |games|
    requires x < |RowsOf(games, tables, players, k - 1)|
    ensures x < |RowsOf(games, tables, players, k)|
    ensures RowsOf(games, tables, players, k)[x] == RowsOf(games, tables, players, k - 1)[x]
  {
  }

  /** The rows added for game k - 1 come right after the rows of the games before it, in roster order. */
  lemma {:induction false} RowsOfLastGame(games: seq<Game>, tables: seq<map<Player, Breakdown>>, players: seq<Player>, k: nat, j: nat)
    requires Fits(games, tables, players) && 0 < k <= |games| && j < |players|
    ensures Offset(k - 1, |players|) + j < |RowsOf(games, tables, players, k)|
    ensures RowsOf(games, tables, players, k)[Offset(k - 1, |players|) + j] == RowOf(games[k - 1], tables[k - 1], players[j])
  {
    RowsOfLength(games, tables, players, k - 1);
    GameRowsAt(games[k - 1], tables[k - 1], players);
  }

  /** Among the rows of the first k games, the row at position i * n + j is that of game i and player j. */
  lemma {:induction false} RowsOfAt(games: seq<Game>, tables: seq<map<Player, Breakdown>>, players: seq<Player>, k: nat, i: nat, j: nat)
    requires Fits(games, tables, players) && k <= |games|
    requires i < k && j < |players|
    ensures Offset(i, |players|) + j < |RowsOf(games, tables, players, k)|
    ensures RowsOf(games, tables, players, k)[Offset(i, |players|) + j] == RowOf(games[i], tables[i], players[j])
    decreases k
  {
    if i == k - 1 {
      RowsOfLastGame(games, tables, players, k, j);
    } else {
      var x := Offset(i, |players|) + j;
      RowsOfAt(games, tables, players, k - 1, i, j);
      RowsOfKeepsFront(games, tables, players, k, x);
    }
  }

  /** The season has one row per game and roster player: n rows for each game, n being the roster size. */
  lemma {:induction false} SeasonRowsLength(rules: Rules, games: seq<Game>, players: seq<Player>)
    requires ValidRules(rules) && |players| > 0 && AllCover(games, players)
    ensures |SeasonRows(rules, games, players)| == Offset(|games|, |players|)
    ensures forall i :: 0 <= i < |games| ==> Offset(i, |players|) + |players| <= |SeasonRows(rules, games, players)|
  {
    TablesFit(rules, games, players);
    RowsOfLength(games, Tables(rules, games, players), players, |games|);
    forall i | 0 <= i < |games| ensures Offset(i, |players|) + |players| <= Offset(|games|, |players|) {
      OffsetGrows(i, |games|, |players|);
    }
  }

  /**
   * The season's row at position i * n + j (n roster players) is that of
   * game i and player j: it carries the game's id, the player's placement
   * and the player's breakdown for that game.
   */
  lemma {:induction false} SeasonRowAt(rules: Rules, games: seq<Game>, players: seq<Player>, i: nat, j: nat)
    requires ValidRules(rules) && |players| > 0 && AllCover(games, players)
    requires i < |games| && j < |players|
    ensures Offset(i, |players|) + j < |SeasonRows(rules, games, players)|
    ensures SeasonRows(rules, games, players)[Offset(i, |players|) + j]
      == BaseRow(games[i].gameId, players[j], games[i].results[players[j]].placement,
                 BreakdownOf(rules, games[i], players, players[j]))
  {
    TablesFit(rules, games, players);
    RowsOfAt(games, Tables(rules, games, players), players, |games|, i, j);
  }

  /** Offset is the product of the game index and the roster size. */
  lemma {:induction false} OffsetIsProduct(i: nat, n: nat)
    ensures Offset(i, n) == i * n
  {
    if i > 0 {
      OffsetIsProduct(i - 1, n);
    }
  }

  // ---------- Consistency shares and game totals ----------

  /** The consistency bonus timeline t awards on game gid: its entry's bonus, or 0 when gid is not on t. */
  ghost function BonusForGame(t: seq<Entry>, gid: int): int {
    if exists i :: 0 <= i < |t| && t[i].gameId == gid then
      var i :| 0 <= i < |t| && t[i].gameId == gid;
      BonusAt(t, i)
    else 0
  }

  /** On an ascending timeline the bonus for an entry's game is that entry's bonus. */
  lemma {:induction false} BonusForEntry(t: seq<Entry>, i: nat)
    requires Ascending(t) && i < |t|
    ensures BonusForGame(t, t[i].gameId) == BonusAt(t, i)
  {
    forall j | 0 <= j < |t| && t[j].gameId == t[i].gameId ensures j == i {
      if j != i {
        AscendingIdsDiffer(t, i, j);
      }
    }
  }

  /** Looking a game up in a player's buckets, with 0 for a game without one. */
  function BucketOr0(bonus: map<int, int>, gid: int): int {
    if gid in bonus then bonus[gid] else 0
  }

  /** Reading the awarded buckets with a default of 0 gives the timeline's bonus for that game. */
  lemma {:induction false} BucketLookup(bonus: map<int, int>, t: seq<Entry>, gid: int)
    requires Ascending(t) && Awarded(bonus, t)
    ensures BucketOr0(bonus, gid) == BonusForGame(t, gid)
  {
    if gid in bonus {
      assert gid in Elems(GameIds(t));
      var i :| 0 <= i < |t| && GameIds(t)[i] == gid;
      BonusForEntry(t, i);
    }
  }

  /** A player's per-game totals over `games`: base total plus the bonus timeline t awards on that game. */
  ghost function GameTotals(rules: Rules, games: seq<Game>, players: seq<Player>, p: Player, t: seq<Entry>): (s: seq<int>)
    requires ValidRules(rules) && |players| > 0 && AllCover(games, players) && p in players
    ensures |s| == |games|
  {
    if games == [] then []
    else
      var last := games[|games| - 1];
      GameTotals(rules, games[..|games| - 1], players, p, t)
        + [BreakdownOf(rules, last, players, p).baseTotal + BonusForGame(t, last.gameId)]
  }

  /** The sum of the first k + 1 elements: that of the first k, plus the (k + 1)-th. */
  lemma {:induction false} SumSnoc(s: seq<int>, k: nat)
    requires k < |s|
    ensures Sum(s[..k + 1]) == Sum(s[..k]) + s[k]
  {
    assert s[..k + 1][..k] == s[..k];
  }

  /**
   * Over a run of games that the timeline `t` follows entry by entry, the
   * per-game totals add up to the run's base points plus the bonuses of
   * as many timeline entries as there are games.
   */
  lemma {:induction false} GameTotalsSum(rules: Rules, games: seq<Game>, players: seq<Player>, p: Player, t: seq<Entry>)
    requires ValidRules(rules) && |players| > 0 && AllCover(games, players) && p in players
    requires Ascending(t) && |games| <= |t|
    requires forall i :: 0 <= i < |games| ==> t[i].gameId == games[i].gameId
    ensures Sum(GameTotals(rules, games, players, p, t))
      == BaseTotal(rules, games, players, p) + Sum(PerGameBonuses(t)[..|games|])
  {
    if games != [] {
      var n := |games| - 1;
      var init := games[..n];
      assert AllCover(init, players) by {
        forall i | 0 <= i < n ensures Covers(init[i].results, players) {
          assert init[i] == games[i];
        }
      }
      GameTotalsSum(rules, init, players, p, t);
      BonusForEntry(t, n);
      SumSnoc(PerGameBonuses(t), n);
      assert GameTotals(rules, games, players, p, t)[..n] == GameTotals(rules, init, players, p, t);
    }
  }

  /**
   * The per-game totals of a player add up to the player's final total:
   * season base points plus season consistency bonus.
   */
  lemma {:induction false} GameTotalsAddUp(rules: Rules, games: seq<Game>, players: seq<Player>, p: Player)
    requires ValidRules(rules) && |players| > 0 && AllCover(games, players) && p in players
    requires forall i, j :: 0 <= i < j < |games| ==> games[i].gameId < games[j].gameId
    ensures Sum(GameTotals(rules, games, players, p, Timeline(games, p)))
      == BaseTotal(rules, games, players, p) + TotalBonus(Timeline(games, p))
  {
    var t := Timeline(games, p);
    TimelineOfFullRoster(games, p);
    TimelineAscending(games, p);
    GameTotalsSum(rules, games, players, p, t);
    assert PerGameBonuses(t)[..|games|] == PerGameBonuses(t);
  }

  /** Each player's final total: season base points plus season consistency bonus. */
  ghost function FinalTotals(rules: Rules, season: seq<Game>, players: seq<Player>): (totals: map<Player, int>)
    requires ValidRules(rules) && |players| > 0 && AllCover(season, players)
    ensures totals.Keys == Elems(players)
  {
    map p | p in Elems(players) :: BaseTotal(rules, season, players, p) + TotalBonus(Timeline(season, p))
  }

  // ---------- The scoreboard's accumulation ----------

  /** `m` with inc[p] added to p's entry. */
  function AddStep(m: map<Player, int>, inc: map<Player, int>, p: Player): map<Player, int>
    requires p in m && p in inc
  {
    m[p := m[p] + inc[p]]
  }

  /** `m` with 1 added to p's entry when `hit` marks p. */
  function CountStep(m: map<Player, int>, hit: map<Player, bool>, p: Player): map<Player, int>
    requires p in m && p in hit
  {
    if hit[p] then m[p := m[p] + 1] else m
  }

  /** `m` with inc[p] added to the entry of each of the first k players of `ps`, one after another. */
  ghost function AddEach(m: map<Player, int>, inc: map<Player, int>, ps: seq<Player>, k: nat): (r: map<Player, int>)
    requires k <= |ps|
    requires forall i :: 0 <= i < |ps| ==> ps[i] in m && ps[i] in inc
    ensures r.Keys == m.Keys
  {
    if k == 0 then m
    else
      AddStep(AddEach(m, inc, ps, k - 1), inc, ps[k - 1])
  }

  /** `m` with 1 added to the entry of each of the first k players of `ps` that `hit` marks. */
  ghost function CountEach(m: map<Player, int>, hit: map<Player, bool>, ps: seq<Player>, k: nat): (r: map<Player, int>)
    requires k <= |ps|
    requires forall i :: 0 <= i < |ps| ==> ps[i] in m && ps[i] in hit
    ensures r.Keys == m.Keys
  {
    if k == 0 then m
    else
      CountStep(CountEach(m, hit, ps, k - 1), hit, ps[k - 1])
  }

  /** Adding to each of distinct players once: the first k gain their increment, the others keep their value. */
  lemma {:induction false} AddEachPointwise(m: map<Player, int>, inc: map<Player, int>, ps: seq<Player>, k: nat)
    requires k <= |ps|
    requires forall i :: 0 <= i < |ps| ==> ps[i] in m && ps[i] in inc
    requires Distinct(ps)
    ensures forall j :: 0 <= j < |ps| ==> AddEach(m, inc, ps, k)[ps[j]] == m[ps[j]] + (if j < k then inc[ps[j]] else 0)
  {
    if k > 0 {
      AddEachPointwise(m, inc, ps, k - 1);
    }
  }

  /** Counting each of distinct players once: the marked ones among the first k gain 1, the others keep their value. */
  lemma {:induction false} CountEachPointwise(m: map<Player, int>, hit: map<Player, bool>, ps: seq<Player>, k: nat)
    requires k <= |ps|
    requires forall i :: 0 <= i < |ps| ==> ps[i] in m && ps[i] in hit
    requires Distinct(ps)
    ensures forall j :: 0 <= j < |ps| ==> CountEach(m, hit, ps, k)[ps[j]] == m[ps[j]] + (if j < k && hit[ps[j]] then 1 else 0)
  {
    if k > 0 {
      CountEachPointwise(m, hit, ps, k - 1);
    }
  }

  /** Each player's base total in a breakdown table. */
  function BaseIncrements(breakdown: map<Player, Breakdown>): (inc: map<Player, int>)
    ensures inc.Keys == breakdown.Keys
  {
    map p | p in breakdown :: breakdown[p].baseTotal
  }

  /** Which players of a game won it. */
  function Won(g: Game): (hit: map<Player, bool>)
    ensures hit.Keys == g.results.Keys
  {
    map p | p in g.results :: g.results[p].placement == 1
  }

  /** Which players of a game finished on the podium. */
  function OnPodium(g: Game): (hit: map<Player, bool>)
    ensures hit.Keys == g.results.Keys
  {
    map p | p in g.results :: g.results[p].placement in {1, 2, 3}
  }

  /**
   * One game of the accumulation, given the game's breakdown table: each
   * roster player's base total grows by the game's base total, a win and a
   * podium are counted by placement, and the game's rows are appended in
   * roster order.
   */
  method AddGame(g: Game, players: seq<Player>, breakdown: map<Player, Breakdown>,
                 base0: map<Player, int>, wins0: map<Player, int>, podiums0: map<Player, int>)
    returns (baseTotals: map<Player, int>, wins: map<Player, int>, podiums: map<Player, int>, rows: seq<BaseRow>)
    requires forall i :: 0 <= i < |players| ==>
      players[i] in g.results && players[i] in breakdown
      && players[i] in base0 && players[i] in wins0 && players[i] in podiums0
    ensures baseTotals == AddEach(base0, BaseIncrements(breakdown), players, |players|)
    ensures wins == CountEach(wins0, Won(g), players, |players|)
    ensures podiums == CountEach(podiums0, OnPodium(g), players, |players|)
    ensures rows == GameRows(g, breakdown, players)
  {
    baseTotals, wins, podiums, rows := base0, wins0, podiums0, [];
    for k := 0 to |players|
      invariant baseTotals == AddEach(base0, BaseIncrements(breakdown), players, k)
      invariant wins == CountEach(wins0, Won(g), players, k)
      invariant podiums == CountEach(podiums0, OnPodium(g), players, k)
      invariant rows == GameRows(g, breakdown, players[..k])
    {
      GameRowsStep(g, breakdown, players, k);
      baseTotals, wins, podiums, rows := TallyPlayer(g, breakdown, players[k], baseTotals, wins, podiums, rows);
    }
    assert players[..|players|] == players;
  }

  /**
   * One roster player's turn in a game: the base total grows by the player's
   * base total, a first place counts a win, a place in {1, 2, 3} counts a
   * podium, and the player's row is appended.
   */
  method TallyPlayer(g: Game, breakdown: map<Player, Breakdown>, p: Player,
                     base0: map<Player, int>, wins0: map<Player, int>, podiums0: map<Player, int>, rows0: seq<BaseRow>)
    returns (baseTotals: map<Player, int>, wins: map<Player, int>, podiums: map<Player, int>, rows: seq<BaseRow>)
    requires p in g.results && p in breakdown && p in base0 && p in wins0 && p in podiums0
    ensures baseTotals == AddStep(base0, BaseIncrements(breakdown), p)
    ensures wins == CountStep(wins0, Won(g), p)
    ensures podiums == CountStep(podiums0, OnPodium(g), p)
    ensures rows == rows0 + [RowOf(g, breakdown, p)]
  {
    baseTotals, wins, podiums, rows := base0, wins0, podiums0, rows0;
    var pl := g.results[p].placement;
    var br := breakdown[p];
    baseTotals := baseTotals[p := baseTotals[p] + br.baseTotal];
    if pl == 1 {
      wins := wins[p := wins[p] + 1];
    }
    if pl in {1, 2, 3} {
      podiums := podiums[p := podiums[p] + 1];
    }
    rows := rows + [BaseRow(g.gameId, p, pl, br)];
  }

  /** The rows of the first k + 1 roster players: those of the first k, then the (k + 1)-th player's. */
  lemma {:induction false} GameRowsStep(g: Game, breakdown: map<Player, Breakdown>, players: seq<Player>, k: nat)
    requires forall i :: 0 <= i < |players| ==> players[i] in g.results && players[i] in breakdown
    requires k < |players|
    ensures GameRows(g, breakdown, players[..k + 1]) == GameRows(g, breakdown, players[..k]) + [RowOf(g, breakdown, players[k])]
  {
    assert players[..k + 1][..k] == players[..k];
  }

  /** A tally of 0 for every roster player. */
  function Zeros(players: seq<Player>): (m: map<Player, int>)
    ensures m.Keys == Elems(players)
    ensures forall p :: p in m ==> m[p] == 0
  {
    map p | p in Elems(players) :: 0
  }

  /** The base-total tally after a run of games, built game by game as the scoreboard builds it. */
  ghost function SeasonBase(rules: Rules, games: seq<Game>, players: seq<Player>): (m: map<Player, int>)
    requires ValidRules(rules) && |players| > 0 && AllCover(games, players)
    ensures m.Keys == Elems(players)
  {
    if games == [] then Zeros(players)
    else
      var last := games[|games| - 1];
      AddEach(SeasonBase(rules, games[..|games| - 1], players), BaseIncrements(BreakdownTable(rules, last, players)), players, |players|)
  }

  /** The win tally after a run of games, built game by game. */
  ghost function SeasonWins(games: seq<Game>, players: seq<Player>): (m: map<Player, int>)
    requires AllCover(games, players)
    ensures m.Keys == Elems(players)
  {
    if games == [] then Zeros(players)
    else CountEach(SeasonWins(games[..|games| - 1], players), Won(games[|games| - 1]), players, |players|)
  }

  /** The podium tally after a run of games, built game by game. */
  ghost function SeasonPodiums(games: seq<Game>, players: seq<Player>): (m: map<Player, int>)
    requires AllCover(games, players)
    ensures m.Keys == Elems(players)
  {
    if games == [] then Zeros(players)
    else CountEach(SeasonPodiums(games[..|games| - 1], players), OnPodium(games[|games| - 1]), players, |players|)
  }

  /** Over the whole of a distinct roster, every player gains exactly its increment. */
  lemma {:induction false} AddEachAll(m: map<Player, int>, inc: map<Player, int>, ps: seq<Player>)
    requires m.Keys == Elems(ps) && Distinct(ps)
    requires forall i :: 0 <= i < |ps| ==> ps[i] in inc
    ensures forall q :: q in m ==> q in inc && AddEach(m, inc, ps, |ps|)[q] == m[q] + inc[q]
  {
    AddEachPointwise(m, inc, ps, |ps|);
    forall q | q in m ensures q in inc && AddEach(m, inc, ps, |ps|)[q] == m[q] + inc[q] {
      var j :| 0 <= j < |ps| && ps[j] == q;
    }
  }

  /** Over the whole of a distinct roster, every marked player gains 1 and no other player changes. */
  lemma {:induction false} CountEachAll(m: map<Player, int>, hit: map<Player, bool>, ps: seq<Player>)
    requires m.Keys == Elems(ps) && Distinct(ps)
    requires forall i :: 0 <= i < |ps| ==> ps[i] in hit
    ensures forall q :: q in m ==> q in hit && CountEach(m, hit, ps, |ps|)[q] == m[q] + (if hit[q] then 1 else 0)
  {
    CountEachPointwise(m, hit, ps, |ps|);
    forall q | q in m ensures q in hit && CountEach(m, hit, ps, |ps|)[q] == m[q] + (if hit[q] then 1 else 0) {
      var j :| 0 <= j < |ps| && ps[j] == q;
    }
  }

  /** A breakdown table that agrees with the breakdown of every roster player is the game's breakdown table. */
  lemma {:induction false} TableIsBreakdown(rules: Rules, g: Game, players: seq<Player>, breakdown: map<Player, Breakdown>)
    requires ValidRules(rules) && |players| > 0 && Covers(g.results, players)
    requires breakdown.Keys == Elems(players)
    requires forall p :: p in breakdown ==> breakdown[p] == BreakdownOf(rules, g, players, p)
    ensures breakdown == BreakdownTable(rules, g, players)
  {
  }

  /** The tally built game by game holds, for every roster player, its base total over those games. */
  lemma {:induction false} SeasonBaseIsBaseTotal(rules: Rules, games: seq<Game>, players: seq<Player>)
    requires ValidRules(rules) && |players| > 0 && Distinct(players) && AllCover(games, players)
    ensures forall p :: p in SeasonBase(rules, games, players) ==>
      p in players && SeasonBase(rules, games, players)[p] == BaseTotal(rules, games, players, p)
  {
    if games != [] {
      var init := games[..|games| - 1];
      SeasonBaseIsBaseTotal(rules, init, players);
      AddEachAll(SeasonBase(rules, init, players), BaseIncrements(BreakdownTable(rules, games[|games| - 1], players)), players);
    }
  }

  /** The win tally built game by game holds, for every roster player, its number of wins. */
  lemma {:induction false} SeasonWinsAreWins(games: seq<Game>, players: seq<Player>)
    requires Distinct(players) && AllCover(games, players)
    ensures forall p :: p in SeasonWins(games, players) ==>
      Plays(games, p) && SeasonWins(games, players)[p] == Wins(games, p)
  {
    if games != [] {
      var init := games[..|games| - 1];
      SeasonWinsAreWins(init, players);
      CountEachAll(SeasonWins(init, players), Won(games[|games| - 1]), players);
    }
  }

  /** The podium tally built game by game holds, for every roster player, its number of podiums. */
  lemma {:induction false} SeasonPodiumsArePodiums(games: seq<Game>, players: seq<Player>)
    requires Distinct(players) && AllCover(games, players)
    ensures forall p :: p in SeasonPodiums(games, players) ==>
      Plays(games, p) && SeasonPodiums(games, players)[p] == Podiums(games, p)
  {
    if games != [] {
      var init := games[..|games| - 1];
      SeasonPodiumsArePodiums(init, players);
      CountEachAll(SeasonPodiums(init, players), OnPodium(games[|games| - 1]), players);
    }
  }

  /** The first i and the first i + 1 games of a covered season are covered. */
  lemma {:induction false} PrefixesCover(season: seq<Game>, players: seq<Player>, i: nat)
    requires AllCover(season, players) && i < |season|
    ensures AllCover(season[..i], players) && AllCover(season[..i + 1], players)
  {
  }

  /** Adding game i to the first i games adds that game's base totals to the base tally. */
  lemma {:induction false} SeasonBaseStep(rules: Rules, season: seq<Game>, players: seq<Player>, i: nat)
    requires ValidRules(rules) && |players| > 0 && AllCover(season, players) && i < |season|
    requires AllCover(season[..i], players) && AllCover(season[..i + 1], players)
    ensures SeasonBase(rules, season[..i + 1], players)
      == AddEach(SeasonBase(rules, season[..i], players), BaseIncrements(BreakdownTable(rules, season[i], players)), players, |players|)
  {
    assert season[..i + 1][..i] == season[..i];
  }

  /** Adding game i to the first i games counts that game's winners in the win tally. */
  lemma {:induction false} SeasonWinsStep(season: seq<Game>, players: seq<Player>, i: nat)
    requires AllCover(season, players) && i < |season|
    requires AllCover(season[..i], players) && AllCover(season[..i + 1], players)
    ensures SeasonWins(season[..i + 1], players) == CountEach(SeasonWins(season[..i], players), Won(season[i]), players, |players|)
  {
    assert season[..i + 1][..i] == season[..i];
  }

  /** Adding game i to the first i games counts that game's podium finishers in the podium tally. */
  lemma {:induction false} SeasonPodiumsStep(season: seq<Game>, players: seq<Player>, i: nat)
    requires AllCover(season, players) && i < |season|
    requires AllCover(season[..i], players) && AllCover(season[..i + 1], players)
    ensures SeasonPodiums(season[..i + 1], players)
      == CountEach(SeasonPodiums(season[..i], players), OnPodium(season[i]), players, |players|)
  {
    assert season[..i + 1][..i] == season[..i];
  }

  /** One game of the season: its breakdown table is computed and added to the tallies and the rows. */
  method PlayGame(rules: Rules, g: Game, players: seq<Player>,
                  base0: map<Player, int>, wins0: map<Player, int>, podiums0: map<Player, int>)
    returns (baseTotals: map<Player, int>, wins: map<Player, int>, podiums: map<Player, int>, rows: seq<BaseRow>)
    requires ValidRules(rules) && |players| > 0 && Covers(g.results, players)
    requires base0.Keys == Elems(players) && wins0.Keys == Elems(players) && podiums0.Keys == Elems(players)
    ensures baseTotals == AddEach(base0, BaseIncrements(BreakdownTable(rules, g, players)), players, |players|)
    ensures wins == CountEach(wins0, Won(g), players, |players|)
    ensures podiums == CountEach(podiums0, OnPodium(g), players, |players|)
    ensures rows == GameRows(g, BreakdownTable(rules, g, players), players)
  {
    var breakdown := ComputeGamePointsBreakdown(rules, g, players);
    TableIsBreakdown(rules, g, players, breakdown);
    baseTotals, wins, podiums, rows := AddGame(g, players, breakdown, base0, wins0, podiums0);
  }

  /** Game i's rows follow the rows of the games before it. */
  lemma {:induction false} RowsStep(rules: Rules, season: seq<Game>, players: seq<Player>, i: nat)
    requires ValidRules(rules) && |players| > 0 && AllCover(season, players) && i < |season|
    ensures Fits(season, Tables(rules, season, players), players)
    ensures RowsOf(season, Tables(rules, season, players), players, i + 1)
      == RowsOf(season, Tables(rules, season, players), players, i)
         + GameRows(season[i], BreakdownTable(rules, season[i], players), players)
  {
    TablesFit(rules, season, players);
  }

  /** The tallies built over the whole season hold each roster player's base total, wins and podiums. */
  lemma {:induction false} SeasonTallies(rules: Rules, season: seq<Game>, players: seq<Player>,
                      baseTotals: map<Player, int>, wins: map<Player, int>, podiums: map<Player, int>, rows: seq<BaseRow>)
    requires ValidRules(rules) && |players| > 0 && Distinct(players) && AllCover(season, players)
    requires AllCover(season[..|season|], players)
    requires baseTotals == SeasonBase(rules, season[..|season|], players)
    requires wins == SeasonWins(season[..|season|], players)
    requires podiums == SeasonPodiums(season[..|season|], players)
    requires Fits(season, Tables(rules, season, players), players)
    requires rows == RowsOf(season, Tables(rules, season, players), players, |season|)
    ensures baseTotals.Keys == Elems(players) && wins.Keys == Elems(players) && podiums.Keys == Elems(players)
    ensures forall p :: p in baseTotals ==> baseTotals[p] == BaseTotal(rules, season, players, p)
    ensures forall p :: p in wins ==> Plays(season, p) && wins[p] == Wins(season, p)
    ensures forall p :: p in podiums ==> Plays(season, p) && podiums[p] == Podiums(season, p)
    ensures rows == SeasonRows(rules, season, players)
  {
    assert season[..|season|] == season;
    SeasonBaseIsBaseTotal(rules, season, players);
    SeasonWinsAreWins(season, players);
    SeasonPodiumsArePodiums(season, players);
  }

  /**
   * The base pass over the season in play order: per-player base points,
   * wins and podiums starting from 0, and the season's rows.
   */
  method AccumulateBase(rules: Rules, season: seq<Game>, players: seq<Player>)
    returns (baseTotals: map<Player, int>, wins: map<Player, int>, podiums: map<Player, int>, rows: seq<BaseRow>)
    requires ValidRules(rules) && |players| > 0 && Distinct(players) && AllCover(season, players)
    ensures baseTotals.Keys == Elems(players) && wins.Keys == Elems(players) && podiums.Keys == Elems(players)
    ensures forall p :: p in baseTotals ==> baseTotals[p] == BaseTotal(rules, season, players, p)
    ensures forall p :: p in wins ==> wins[p] == Wins(season, p)
    ensures forall p :: p in podiums ==> podiums[p] == Podiums(season, p)
    ensures rows == SeasonRows(rules, season, players)
  {
    baseTotals, wins, podiums, rows := Zeros(players), Zeros(players), Zeros(players), [];
    TablesFit(rules, season, players);
    for i := 0 to |season|
      invariant AllCover(season[..i], players)
      invariant baseTotals == SeasonBase(rules, season[..i], players)
      invariant wins == SeasonWins(season[..i], players)
      invariant podiums == SeasonPodiums(season[..i], players)
      invariant Fits(season, Tables(rules, season, players), players)
      invariant rows == RowsOf(season, Tables(rules, season, players), players, i)
    {
      PrefixesCover(season, players, i);
      SeasonBaseStep(rules, season, players, i);
      SeasonWinsStep(season, players, i);
      SeasonPodiumsStep(season, players, i);
      RowsStep(rules, season, players, i);
      var gameRows;
      baseTotals, wins, podiums, gameRows := PlayGame(rules, season[i], players, baseTotals, wins, podiums);
      rows := rows + gameRows;
    }
    SeasonTallies(rules, season, players, baseTotals, wins, podiums, rows);
  }

  /** A player's consistency share of one game: the bucket for that game, or 0 when there is none. */
  function ShareOf(perGame: map<Player, map<int, int>>, p: Player, gid: int): int {
    if p in perGame then BucketOr0(perGame[p], gid) else 0
  }

  /** Each row gets its player's consistency share of its game, and the game total base + share. */
  method AttachConsistency(baseRows: seq<BaseRow>, perGame: map<Player, map<int, int>>) returns (rows: seq<Row>)
    ensures |rows| == |baseRows|
    ensures forall k :: 0 <= k < |rows| ==>
      && rows[k].base == baseRows[k]
      && rows[k].consistencyBonus == ShareOf(perGame, baseRows[k].player, baseRows[k].gameId)
      && rows[k].gameTotal == baseRows[k].breakdown.baseTotal + rows[k].consistencyBonus
  {
    rows := [];
    for k := 0 to |baseRows|
      invariant |rows| == k
      invariant forall j :: 0 <= j < k ==>
        && rows[j].base == baseRows[j]
        && rows[j].consistencyBonus == ShareOf(perGame, baseRows[j].player, baseRows[j].gameId)
        && rows[j].gameTotal == baseRows[j].breakdown.baseTotal + rows[j].consistencyBonus
    {
      var row := baseRows[k];
      var cb := ShareOf(perGame, row.player, row.gameId);
      rows := rows + [Row(row, cb, row.breakdown.baseTotal + cb)];
    }
  }

  // ---------- Overall standings and the per-game table ----------

  /** The standings line of roster player p over a season in play order. */
  ghost function StandingOf(rules: Rules, season: seq<Game>, players: seq<Player>, p: Player): Standing
    requires ValidRules(rules) && |players| > 0 && AllCover(season, players) && p in players
  {
    var base := BaseTotal(rules, season, players, p);
    var bonus := TotalBonus(Timeline(season, p));
    Standing(Rank(FinalTotals(rules, season, players), p), p, Wins(season, p), Podiums(season, p), base, bonus, base + bonus)
  }

  /** The row of game i and roster player j in the per-game table, consistency share and game total attached. */
  ghost function RowFor(rules: Rules, season: seq<Game>, players: seq<Player>, i: nat, j: nat): Row
    requires ValidRules(rules) && |players| > 0 && AllCover(season, players)
    requires i < |season| && j < |players|
  {
    var g, p := season[i], players[j];
    WithShare(season, BaseRow(g.gameId, p, g.results[p].placement, BreakdownOf(rules, g, players, p)))
  }

  /**
   * What a standings line guarantees: a rank between 1 and the roster
   * size, no more wins than podiums and no more podiums than games, and a
   * total equal to the sum of the player's per-game totals.
   */
  lemma {:induction false} StandingFacts(rules: Rules, season: seq<Game>, players: seq<Player>, p: Player)
    requires ValidRules(rules) && |players| > 0 && Distinct(players) && AllCover(season, players) && p in players
    requires forall i, j :: 0 <= i < j < |season| ==> season[i].gameId < season[j].gameId
    ensures 1 <= StandingOf(rules, season, players, p).rank <= |players|
    ensures StandingOf(rules, season, players, p).wins <= StandingOf(rules, season, players, p).podiums <= |season|
    ensures StandingOf(rules, season, players, p).totalPoints
      == Sum(GameTotals(rules, season, players, p, Timeline(season, p)))
  {
    RankBounds(FinalTotals(rules, season, players), p);
    DistinctElemsCount(players);
    WinsWithinPodiums(season, p);
    GameTotalsAddUp(rules, season, players, p);
  }

  /** More total points means a strictly better rank, and equal totals mean equal ranks. */
  lemma {:induction false} StandingsOrder(rules: Rules, season: seq<Game>, players: seq<Player>, p: Player, q: Player)
    requires ValidRules(rules) && |players| > 0 && AllCover(season, players) && p in players && q in players
    ensures StandingOf(rules, season, players, p).totalPoints > StandingOf(rules, season, players, q).totalPoints
      <==> StandingOf(rules, season, players, p).rank < StandingOf(rules, season, players, q).rank
    ensures StandingOf(rules, season, players, p).totalPoints == StandingOf(rules, season, players, q).totalPoints
      <==> StandingOf(rules, season, players, p).rank == StandingOf(rules, season, players, q).rank
  {
    RankOrder(FinalTotals(rules, season, players), p, q);
  }

  /** Entry i of a player's per-game totals: that game's base total plus the bonus t awards on it. */
  lemma {:induction false} GameTotalsIndex(rules: Rules, games: seq<Game>, players: seq<Player>, p: Player, t: seq<Entry>, i: nat)
    requires ValidRules(rules) && |players| > 0 && AllCover(games, players) && p in players
    requires i < |games|
    ensures GameTotals(rules, games, players, p, t)[i]
      == BreakdownOf(rules, games[i], players, p).baseTotal + BonusForGame(t, games[i].gameId)
  {
    if i < |games| - 1 {
      GameTotalsIndex(rules, games[..|games| - 1], players, p, t, i);
    }
  }

  /** A row's game total is the player's entry for that game among the per-game totals. */
  lemma {:induction false} GameTotalsAt(rules: Rules, season: seq<Game>, players: seq<Player>, i: nat, j: nat)
    requires ValidRules(rules) && |players| > 0 && AllCover(season, players)
    requires i < |season| && j < |players|
    ensures RowFor(rules, season, players, i, j).gameTotal
      == GameTotals(rules, season, players, players[j], Timeline(season, players[j]))[i]
  {
    GameTotalsIndex(rules, season, players, players[j], Timeline(season, players[j]), i);
  }

  /** The scoreboard's final totals are each roster player's base total plus consistency total. */
  lemma {:induction false} FinalTotalsMatch(rules: Rules, season: seq<Game>, players: seq<Player>,
                         baseTotals: map<Player, int>, consistencyTotals: map<Player, int>, finalTotals: map<Player, int>)
    requires ValidRules(rules) && |players| > 0 && AllCover(season, players)
    requires baseTotals.Keys == Elems(players) && consistencyTotals.Keys == Elems(players)
    requires forall p :: p in baseTotals ==> baseTotals[p] == BaseTotal(rules, season, players, p)
    requires forall p :: p in consistencyTotals ==> consistencyTotals[p] == TotalBonus(Timeline(season, p))
    requires finalTotals
      == map p | p in Elems(players) :: baseTotals[p] + (if p in consistencyTotals then consistencyTotals[p] else 0)
    ensures finalTotals == FinalTotals(rules, season, players)
  {
    var expected := FinalTotals(rules, season, players);
    assert finalTotals.Keys == expected.Keys;
    forall p | p in finalTotals ensures finalTotals[p] == expected[p] {
    }
  }

  /** The standings lines, one per roster player in roster order. */
  method BuildStandings(players: seq<Player>, ranks: map<Player, int>, wins: map<Player, int>, podiums: map<Player, int>,
                        baseTotals: map<Player, int>, consistencyTotals: map<Player, int>, finalTotals: map<Player, int>)
    returns (standings: seq<Standing>)
    requires forall j :: 0 <= j < |players| ==>
      players[j] in ranks && players[j] in wins && players[j] in podiums && players[j] in baseTotals && players[j] in finalTotals
    ensures |standings| == |players|
    ensures forall j :: 0 <= j < |players| ==>
      var p := players[j];
      standings[j] == Standing(ranks[p], p, wins[p], podiums[p], baseTotals[p],
                               if p in consistencyTotals then consistencyTotals[p] else 0, finalTotals[p])
  {
    standings := [];
    for j := 0 to |players|
      invariant |standings| == j
      invariant forall k :: 0 <= k < j ==>
        var p := players[k];
        standings[k] == Standing(ranks[p], p, wins[p], podiums[p], baseTotals[p],
                                 if p in consistencyTotals then consistencyTotals[p] else 0, finalTotals[p])
    {
      var p := players[j];
      standings := standings + [Standing(ranks[p], p, wins[p], podiums[p], baseTotals[p],
                                         if p in consistencyTotals then consistencyTotals[p] else 0, finalTotals[p])];
    }
  }

  /** Player j's line in the built standings is the player's standings line for the season. */
  lemma {:induction false} StandingMatches(rules: Rules, season: seq<Game>, players: seq<Player>, j: nat,
                        ranks: map<Player, int>, wins: map<Player, int>, podiums: map<Player, int>,
                        baseTotals: map<Player, int>, consistencyTotals: map<Player, int>, finalTotals: map<Player, int>)
    requires ValidRules(rules) && |players| > 0 && AllCover(season, players) && j < |players|
    requires finalTotals == FinalTotals(rules, season, players)
    requires ranks.Keys == finalTotals.Keys && forall p :: p in ranks ==> ranks[p] == Rank(finalTotals, p)
    requires wins.Keys == Elems(players) && forall p :: p in wins ==> wins[p] == Wins(season, p)
    requires podiums.Keys == Elems(players) && forall p :: p in podiums ==> podiums[p] == Podiums(season, p)
    requires baseTotals.Keys == Elems(players)
    requires forall p :: p in baseTotals ==> baseTotals[p] == BaseTotal(rules, season, players, p)
    requires consistencyTotals.Keys == Elems(players)
    requires forall p :: p in consistencyTotals ==> consistencyTotals[p] == TotalBonus(Timeline(season, p))
    ensures var p := players[j];
      Standing(ranks[p], p, wins[p], podiums[p], baseTotals[p],
               if p in consistencyTotals then consistencyTotals[p] else 0, finalTotals[p])
      == StandingOf(rules, season, players, p)
  {
  }

  /** A base row with the consistency bonus its player's timeline awards on its game, and the sum of the two. */
  ghost function WithShare(season: seq<Game>, b: BaseRow): Row {
    var bonus := BonusForGame(Timeline(season, b.player), b.gameId);
    Row(b, bonus, b.breakdown.baseTotal + bonus)
  }

  /** The rows `base`, each with its consistency share attached. */
  ghost function Shares(season: seq<Game>, base: seq<BaseRow>): seq<Row> {
    if base == [] then [] else Shares(season, base[..|base| - 1]) + [WithShare(season, base[|base| - 1])]
  }

  /** Attaching shares keeps the rows where they were. */
  lemma {:induction false} SharesAt(season: seq<Game>, base: seq<BaseRow>)
    ensures |Shares(season, base)| == |base|
    ensures forall k :: 0 <= k < |base| ==> Shares(season, base)[k] == WithShare(season, base[k])
  {
    if base != [] {
      var init := base[..|base| - 1];
      SharesAt(season, init);
      forall k | 0 <= k < |base| ensures Shares(season, base)[k] == WithShare(season, base[k]) {
        if k < |init| {
          assert base[k] == init[k];
        }
      }
    }
  }

  /** The season's per-game table: every base row with its consistency share attached. */
  ghost function SeasonTable(rules: Rules, season: seq<Game>, players: seq<Player>): seq<Row>
    requires ValidRules(rules) && |players| > 0 && AllCover(season, players)
  {
    Shares(season, SeasonRows(rules, season, players))
  }

  /** Every row of the first k games belongs to a roster player. */
  lemma {:induction false} RowsOfPlayers(games: seq<Game>, tables: seq<map<Player, Breakdown>>, players: seq<Player>, k: nat)
    requires Fits(games, tables, players) && k <= |games|
    ensures forall x :: 0 <= x < |RowsOf(games, tables, players, k)| ==> RowsOf(games, tables, players, k)[x].player in Elems(players)
  {
    if k > 0 {
      RowsOfPlayers(games, tables, players, k - 1);
      GameRowsAt(games[k - 1], tables[k - 1], players);
    }
  }

  /** Every row of the season belongs to a roster player. */
  lemma {:induction false} SeasonRowsPlayers(rules: Rules, season: seq<Game>, players: seq<Player>)
    requires ValidRules(rules) && |players| > 0 && AllCover(season, players)
    ensures forall x :: 0 <= x < |SeasonRows(rules, season, players)| ==> SeasonRows(rules, season, players)[x].player in Elems(players)
  {
    TablesFit(rules, season, players);
    RowsOfPlayers(season, Tables(rules, season, players), players, |season|);
  }

  /** Game i's row for roster player j sits at position i * n + j of the season's table. */
  lemma {:induction false} TableAt(rules: Rules, season: seq<Game>, players: seq<Player>, i: nat, j: nat)
    requires ValidRules(rules) && |players| > 0 && AllCover(season, players)
    requires i < |season| && j < |players|
    ensures |SeasonTable(rules, season, players)| == Offset(|season|, |players|)
    ensures Offset(i, |players|) + j < |SeasonTable(rules, season, players)|
    ensures SeasonTable(rules, season, players)[Offset(i, |players|) + j] == RowFor(rules, season, players, i, j)
  {
    SeasonRowsLength(rules, season, players);
    SeasonRowAt(rules, season, players, i, j);
    SharesAt(season, SeasonRows(rules, season, players));
  }

  /**
   * Attaching the per-game bonuses the consistency pass computed to the
   * season's base rows gives the season's table.
   */
  lemma {:induction false} AttachedIsTable(rules: Rules, season: seq<Game>, players: seq<Player>, perGame: map<Player, map<int, int>>,
                        baseRows: seq<BaseRow>, rows: seq<Row>)
    requires ValidRules(rules) && |players| > 0 && AllCover(season, players)
    requires forall a, b :: 0 <= a < b < |season| ==> season[a].gameId < season[b].gameId
    requires baseRows == SeasonRows(rules, season, players)
    requires perGame.Keys == Elems(players)
    requires forall p :: p in perGame ==> Awarded(perGame[p], Timeline(season, p))
    requires |rows| == |baseRows|
    requires forall k :: 0 <= k < |rows| ==>
      && rows[k].base == baseRows[k]
      && rows[k].consistencyBonus == ShareOf(perGame, baseRows[k].player, baseRows[k].gameId)
      && rows[k].gameTotal == baseRows[k].breakdown.baseTotal + rows[k].consistencyBonus
    ensures rows == SeasonTable(rules, season, players)
  {
    SeasonRowsPlayers(rules, season, players);
    SharesAt(season, baseRows);
    forall k | 0 <= k < |rows| ensures rows[k] == WithShare(season, baseRows[k]) {
      var p := baseRows[k].player;
      TimelineAscending(season, p);
      BucketLookup(perGame[p], Timeline(season, p), baseRows[k].gameId);
    }
  }

  /**
   * The ranking step of the scoreboard: each roster player's final total
   * is the base total plus the consistency total, the final totals are
   * ranked, and one standings line is built per roster player.
   */
  method RankStandings(rules: Rules, season: seq<Game>, players: seq<Player>,
                       baseTotals: map<Player, int>, wins: map<Player, int>, podiums: map<Player, int>,
                       consistencyTotals: map<Player, int>)
    returns (standings: seq<Standing>)
    requires ValidRules(rules) && |players| > 0 && AllCover(season, players)
    requires baseTotals.Keys == Elems(players) && wins.Keys == Elems(players) && podiums.Keys == Elems(players)
    requires forall p :: p in baseTotals ==> baseTotals[p] == BaseTotal(rules, season, players, p)
    requires forall p :: p in wins ==> wins[p] == Wins(season, p)
    requires forall p :: p in podiums ==> podiums[p] == Podiums(season, p)
    requires consistencyTotals.Keys == Elems(players)
    requires forall p :: p in consistencyTotals ==> consistencyTotals[p] == TotalBonus(Timeline(season, p))
    ensures |standings| == |players|
    ensures forall j :: 0 <= j < |players| ==> standings[j] == StandingOf(rules, season, players, players[j])
  {
    var finalTotals := map p | p in Elems(players) :: baseTotals[p] + (if p in consistencyTotals then consistencyTotals[p] else 0);
    FinalTotalsMatch(rules, season, players, baseTotals, consistencyTotals, finalTotals);
    var ranks := AssignRanks(finalTotals);
    standings := BuildStandings(players, ranks, wins, podiums, baseTotals, consistencyTotals, finalTotals);
    forall j | 0 <= j < |players| ensures standings[j] == StandingOf(rules, season, players, players[j]) {
      StandingMatches(rules, season, players, j, ranks, wins, podiums, baseTotals, consistencyTotals, finalTotals);
    }
  }

  /**
   * The scoreboard's season computation: the games are put in play order,
   * the base pass tallies base points, wins, podiums and rows, the
   * consistency bonuses are computed, the final totals are ranked, and
   * each row gets its game's consistency share. The standings hold one
   * line per roster player in roster order; the table holds one row per
   * game and roster player, game by game.
   */
  method SeasonStandings(rules: Rules, games: seq<Game>, players: seq<Player>)
    returns (standings: seq<Standing>, rows: seq<Row>)
    requires ValidRules(rules) && |players| > 0 && Distinct(players)
    requires DistinctIds(games) && AllCover(games, players)
    ensures AllCover(SeasonOrder(games), players)
    ensures |standings| == |players|
    ensures forall j :: 0 <= j < |players| ==> standings[j] == StandingOf(rules, SeasonOrder(games), players, players[j])
    ensures rows == SeasonTable(rules, SeasonOrder(games), players)
  {
    var season := SeasonOrder(games);
    SeasonCovers(games, players);
    SeasonOrderStrictlyIncreasing(games);
    SeasonOrderIdempotent(games);

    var baseTotals, wins, podiums, baseRows := AccumulateBase(rules, season, players);
    var consistencyTotals, perGame := ComputeConsistencyBonuses(season, players);
    standings := RankStandings(rules, season, players, baseTotals, wins, podiums, consistencyTotals);
    rows := AttachConsistency(baseRows, perGame);
    AttachedIsTable(rules, season, players, perGame, baseRows, rows);
  }
}
