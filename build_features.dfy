/**
 * The batch feature builder of src/feature_engineering/build_features.py:
 * the training table's column derivations, computed from every completed
 * player-game row ordered by player and date.
 *
 * Per-player columns are modelled on one player's history, oldest row
 * first (what `groupby('player_id')` hands each `transform`); the columns
 * that look across players (star teammates, team games, season start)
 * take the whole table.
 */
module BuildFeatures {
  import opened Wrappers
  import opened Text
  import Numeric
  import OnlineFeatures
  import CollectGames

  // ---- rolling windows (lines 68-105, 146-160) -----------------------------

  /** First row a window of `w` rows ending just before row `i` covers. */
  function WindowStart(i: nat, w: nat): nat {
    if i >= w then i - w else 0
  }

  /** The up to `w` rows right before row `i`: the window a shifted rolling feature sees on row `i`. */
  function Earlier(xs: seq<real>, i: nat, w: nat): (r: seq<real>)
    requires i <= |xs|
    ensures |r| == i - WindowStart(i, w)
    ensures forall k :: 0 <= k < |r| ==> r[k] == xs[WindowStart(i, w) + k]
  {
    xs[WindowStart(i, w)..i]
  }

  /**
   * `exp_weighted_mean`: the window ascends in date, and the weight of its
   * k-th entry from the end is exp(-0.1 k), normalised; an empty window has
   * no mean.
   */
  function ExpWeightedMean(window: seq<real>, decay: seq<real>): (r: Option<real>)
    requires OnlineFeatures.DecayFactors(decay) && |window| <= |decay|
    ensures r.None? <==> |window| == 0
  {
    if |window| == 0 then None
    else Some(Numeric.WeightedSum(window, OnlineFeatures.Weights(|window|, decay)))
  }

  /** In an ascending window the newest row weighs most: the weights grow with the index and add up to 1. */
  lemma NewestWeighsMost(window: seq<real>, decay: seq<real>)
    requires OnlineFeatures.DecayFactors(decay) && 0 < |window| <= |decay|
    ensures Numeric.Sum(OnlineFeatures.Weights(|window|, decay)) == 1.0
    ensures forall i :: 0 <= i < |window| - 1 ==>
      OnlineFeatures.Weights(|window|, decay)[i] < OnlineFeatures.Weights(|window|, decay)[|window| - 1]
  {
    OnlineFeatures.WeightsSumToOne(|window|, decay);
    OnlineFeatures.WeightsGrowWithAge(|window|, decay);
  }

  /** `x.rolling(window=w, min_periods=1).mean().shift(1)`: missing on the first row. */
  function RollingMean(xs: seq<real>, i: nat, w: nat): (r: Option<real>)
    requires i < |xs| && w > 0
    ensures r.None? <==> i == 0
  {
    if i == 0 then None else Some(Numeric.Mean(Earlier(xs, i, w)))
  }

  /** `x.rolling(window=w, min_periods=1).apply(exp_weighted_mean).shift(1)`. */
  function RollingWeighted(xs: seq<real>, i: nat, w: nat, decay: seq<real>): (r: Option<real>)
    requires i < |xs| && 0 < w <= |decay| && OnlineFeatures.DecayFactors(decay)
    ensures r.None? <==> i == 0
  {
    ExpWeightedMean(Earlier(xs, i, w), decay)
  }

  /**
   * Both rolling features of row `i` depend only on rows max(0, i-w)..i-1:
   * two histories that agree there give the same features, whatever row `i`
   * and later rows hold.
   */
  lemma RollingUsesOnlyEarlierRows(xs: seq<real>, ys: seq<real>, i: nat, w: nat, decay: seq<real>)
    requires i < |xs| && i < |ys| && 0 < w <= |decay| && OnlineFeatures.DecayFactors(decay)
    requires forall k :: WindowStart(i, w) <= k < i ==> xs[k] == ys[k]
    ensures RollingMean(xs, i, w) == RollingMean(ys, i, w)
    ensures RollingWeighted(xs, i, w, decay) == RollingWeighted(ys, i, w, decay)
  {
    assert Earlier(xs, i, w) == Earlier(ys, i, w);
  }

  /** Past the first row, both rolling features lie between the smallest and largest value of the window. */
  lemma RollingBetween(xs: seq<real>, i: nat, w: nat, decay: seq<real>, lo: real, hi: real)
    requires 0 < i < |xs| && 0 < w <= |decay| && OnlineFeatures.DecayFactors(decay)
    requires forall k :: WindowStart(i, w) <= k < i ==> lo <= xs[k] <= hi
    ensures lo <= RollingMean(xs, i, w).value <= hi
    ensures lo <= RollingWeighted(xs, i, w, decay).value <= hi
  {
    var e := Earlier(xs, i, w);
    Numeric.MeanBetween(e, lo, hi);
    OnlineFeatures.WeightsSumToOne(|e|, decay);
    OnlineFeatures.WeightsGrowWithAge(|e|, decay);
    Numeric.ConvexCombination(e, OnlineFeatures.Weights(|e|, decay), lo, hi);
  }

  /** `net_rating_l{w}`: offensive minus defensive rolling rating, missing when either is. */
  function NetRating(offensive: Option<real>, defensive: Option<real>): (r: Option<real>)
    ensures r.Some? <==> offensive.Some? && defensive.Some?
    ensures r.Some? ==> r.value + defensive.value == offensive.value
  {
    if offensive.Some? && defensive.Some? then Some(offensive.value - defensive.value) else None
  }

  // ---- shifted sums and ratios (lines 164-205) -----------------------------

  /** `x.shift(1).rolling(window=w, min_periods=1).sum()`: missing on the first row, where only NaN is in the window. */
  function ShiftedSum(xs: seq<real>, i: nat, w: nat): (r: Option<real>)
    requires i < |xs| && w > 0
    ensures r.None? <==> i == 0
  {
    if i == 0 then None else Some(Numeric.Sum(Earlier(xs, i, w)))
  }

  /** A positive denominator window: NaN > 0 is false, so a missing sum is not positive. */
  predicate Positive(s: Option<real>) {
    s.Some? && s.value > 0.0
  }

  /** Shooting percentages, `np.where(att_sum > 0, made_sum / att_sum, 0)`. */
  function ShotPct(made: seq<real>, att: seq<real>, i: nat, w: nat): (r: real)
    requires |made| == |att| && i < |att| && w > 0
    ensures !Positive(ShiftedSum(att, i, w)) ==> r == 0.0
    ensures i == 0 ==> r == 0.0
  {
    var a := ShiftedSum(att, i, w);
    if Positive(a) then ShiftedSum(made, i, w).value / a.value else 0.0
  }

  /** `{stat}_per_36_l{w}`, `np.where(min_sum > 0, (stat_sum / min_sum) * 36, 0)`. */
  function Per36Rate(stat: seq<real>, minutes: seq<real>, i: nat, w: nat): (r: real)
    requires |stat| == |minutes| && i < |minutes| && w > 0
    ensures !Positive(ShiftedSum(minutes, i, w)) ==> r == 0.0
    ensures i == 0 ==> r == 0.0
  {
    var m := ShiftedSum(minutes, i, w);
    if Positive(m) then ShiftedSum(stat, i, w).value / m.value * 36.0 else 0.0
  }

  /** `reb_rate_l{w}`, `np.where(min_sum > 0, reb_sum / (min_sum / 36), 0)`. */
  function ReboundRate(reb: seq<real>, minutes: seq<real>, i: nat, w: nat): real
    requires |reb| == |minutes| && i < |minutes| && w > 0
  {
    var m := ShiftedSum(minutes, i, w);
    if Positive(m) then ShiftedSum(reb, i, w).value / (m.value / 36.0) else 0.0
  }

  /**
   * `ast_to_ratio_l{w}` and `pts_per_ast_l{w}`: the quotient when the
   * denominator window is positive, otherwise the numerator sum itself,
   * which is missing on the first row.
   */
  function FallbackRatio(num: seq<real>, den: seq<real>, i: nat, w: nat): (r: Option<real>)
    requires |num| == |den| && i < |den| && w > 0
    ensures r.None? <==> i == 0
    ensures !Positive(ShiftedSum(den, i, w)) ==> r == ShiftedSum(num, i, w)
  {
    var d := ShiftedSum(den, i, w);
    if Positive(d) then Some(ShiftedSum(num, i, w).value / d.value) else ShiftedSum(num, i, w)
  }

  lemma QuotientAtMostOne(s: real, a: real)
    requires 0.0 <= s <= a && a > 0.0
    ensures 0.0 <= s / a <= 1.0
  {
  }

  lemma QuotientNonNegative(s: real, a: real)
    requires s >= 0.0 && a > 0.0
    ensures s / a >= 0.0
  {
  }

  /** A percentage of made over attempted shots, each made count at most its attempts, lies in [0, 1]. */
  lemma ShotPctBetween(made: seq<real>, att: seq<real>, i: nat, w: nat)
    requires |made| == |att| && i < |att| && w > 0
    requires forall k :: 0 <= k < |att| ==> 0.0 <= made[k] <= att[k]
    ensures 0.0 <= ShotPct(made, att, i, w) <= 1.0
  {
    if i > 0 {
      var m, a := Earlier(made, i, w), Earlier(att, i, w);
      assert forall k :: 0 <= k < |m| ==> 0.0 <= m[k] <= a[k];
      Numeric.SumMonotone(m, a);
      Numeric.SumNonNegative(m);
      if Numeric.Sum(a) > 0.0 {
        QuotientAtMostOne(Numeric.Sum(m), Numeric.Sum(a));
      }
    }
  }

  /** With non-negative stats and minutes, the per-36 and rebound rates are non-negative. */
  lemma RatesNonNegative(stat: seq<real>, minutes: seq<real>, i: nat, w: nat)
    requires |stat| == |minutes| && i < |minutes| && w > 0
    requires forall k :: 0 <= k < |stat| ==> stat[k] >= 0.0
    ensures Per36Rate(stat, minutes, i, w) >= 0.0
    ensures ReboundRate(stat, minutes, i, w) >= 0.0
  {
    if i > 0 {
      var s := Earlier(stat, i, w);
      assert forall k :: 0 <= k < |s| ==> s[k] >= 0.0;
      Numeric.SumNonNegative(s);
      var m := Numeric.Sum(Earlier(minutes, i, w));
      if m > 0.0 {
        QuotientNonNegative(Numeric.Sum(s), m);
        QuotientNonNegative(Numeric.Sum(s), m / 36.0);
      }
    }
  }

  lemma DivideByScaled(s: real, m: real)
    requires m > 0.0
    ensures s / (m / 36.0) == s / m * 36.0
  {
  }

  /** The rebound rate is the per-36 rebound figure under another formula. */
  lemma ReboundRateIsPer36(reb: seq<real>, minutes: seq<real>, i: nat, w: nat)
    requires |reb| == |minutes| && i < |minutes| && w > 0
    ensures ReboundRate(reb, minutes, i, w) == Per36Rate(reb, minutes, i, w)
  {
    var m := ShiftedSum(minutes, i, w);
    if Positive(m) {
      DivideByScaled(ShiftedSum(reb, i, w).value, m.value);
    }
  }

  // ---- rest (lines 253-256, 288) -------------------------------------------

  predicate Ascending(dates: seq<int>) {
    forall i, j :: 0 <= i < j < |dates| ==> dates[i] <= dates[j]
  }

  /** `days_rest`: the day gap to the player's previous row, 3 on the first row. */
  function DaysRest(dates: seq<int>, i: nat): (r: int)
    requires i < |dates|
    ensures Ascending(dates) ==> r >= 0
  {
    if i == 0 then 3 else dates[i] - dates[i - 1]
  }

  predicate BackToBack(dates: seq<int>, i: nat)
    requires i < |dates|
  {
    DaysRest(dates, i) == 1
  }

  predicate WellRested(dates: seq<int>, i: nat)
    requires i < |dates|
  {
    DaysRest(dates, i) >= 3
  }

  // ---- schedule density (lines 264-287) ------------------------------------

  /** Number of rows among the first `j` whose date is at most `d` days before row `i`'s. */
  function CountWithin(dates: seq<int>, i: nat, d: int, j: nat): (r: nat)
    requires j <= i < |dates|
    ensures r <= j
  {
    if j == 0 then 0
    else CountWithin(dates, i, d, j - 1) + (if dates[i] - dates[j - 1] <= d then 1 else 0)
  }

  /** `games_in_last_{d}_days`: the player's earlier rows within `d` days, inclusive. */
  function GamesWithin(dates: seq<int>, i: nat, d: int): nat
    requires i < |dates|
  {
    CountWithin(dates, i, d, i)
  }

  /** The density loop: for each row, the earlier dates are compared with its own. */
  method ScheduleDensity(dates: seq<int>) returns (games3: seq<nat>, games7: seq<nat>)
    ensures |games3| == |dates| && |games7| == |dates|
    ensures forall i :: 0 <= i < |dates| ==> games3[i] == GamesWithin(dates, i, 3) && games7[i] == GamesWithin(dates, i, 7)
  {
    games3, games7 := [], [];
    for i := 0 to |dates|
      invariant |games3| == i && |games7| == i
      invariant forall k :: 0 <= k < i ==> games3[k] == GamesWithin(dates, k, 3) && games7[k] == GamesWithin(dates, k, 7)
    {
      if i == 0 {
        games3, games7 := games3 + [0], games7 + [0];
      } else {
        var c3, c7 := 0, 0;
        for j := 0 to i
          invariant c3 == CountWithin(dates, i, 3, j) && c7 == CountWithin(dates, i, 7, j)
        {
          var diff := dates[i] - dates[j];
          if diff <= 3 { c3 := c3 + 1; }
          if diff <= 7 { c7 := c7 + 1; }
        }
        games3, games7 := games3 + [c3], games7 + [c7];
      }
    }
  }

  lemma {:induction false} CountWithinMonotone(dates: seq<int>, i: nat, d: int, e: int, j: nat)
    requires j <= i < |dates| && d <= e
    ensures CountWithin(dates, i, d, j) <= CountWithin(dates, i, e, j)
  {
    if j > 0 {
      CountWithinMonotone(dates, i, d, e, j - 1);
    }
  }

  /** Both counts are 0 on the first row, and 3-day count <= 7-day count <= number of earlier rows. */
  lemma DensityBounds(dates: seq<int>, i: nat)
    requires i < |dates|
    ensures GamesWithin(dates, i, 3) <= GamesWithin(dates, i, 7) <= i
    ensures i == 0 ==> GamesWithin(dates, i, 7) == 0
  {
    CountWithinMonotone(dates, i, 3, 7, i);
  }

  /** `is_heavy_schedule`. */
  predicate HeavySchedule(dates: seq<int>, i: nat)
    requires i < |dates|
  {
    GamesWithin(dates, i, 7) >= 4
  }

  /** A heavy schedule needs at least four earlier rows. */
  lemma HeavyNeedsFourEarlierRows(dates: seq<int>, i: nat)
    requires i < |dates| && HeavySchedule(dates, i)
    ensures i >= 4
  {
    DensityBounds(dates, i);
  }

  lemma {:induction false} CountWithinIncludes(dates: seq<int>, i: nat, d: int, j: nat, k: nat)
    requires k < j <= i < |dates| && dates[i] - dates[k] <= d
    ensures CountWithin(dates, i, d, j) >= 1
  {
    if k < j - 1 {
      CountWithinIncludes(dates, i, d, j - 1, k);
    }
  }

  /** A back-to-back row always counts its previous game in the 3-day density. */
  lemma BackToBackIsDense(dates: seq<int>, i: nat)
    requires i < |dates| && BackToBack(dates, i)
    ensures GamesWithin(dates, i, 3) >= 1
  {
    CountWithinIncludes(dates, i, 3, i, i - 1);
  }

  // ---- consecutive games (lines 290-294) -----------------------------------

  /** The run of gaps of at most 2 days ending at row `i`, 0 on the first row and after a longer gap. */
  function Streak(dates: seq<int>, i: nat): (r: nat)
    requires i < |dates|
    ensures r <= i
  {
    if i == 0 then 0
    else if dates[i] - dates[i - 1] <= 2 then Streak(dates, i - 1) + 1
    else 0
  }

  /** `consecutive_games`: the streak as of the previous row, 0 on the first row. */
  function ConsecutiveGames(dates: seq<int>, i: nat): (r: nat)
    requires i < |dates|
    ensures r < i || i == 0
  {
    if i == 0 then 0 else Streak(dates, i - 1)
  }

  /** The streak is the length of the longest run of short gaps ending at row `i`. */
  lemma {:induction false} StreakIsLongestRun(dates: seq<int>, i: nat)
    requires i < |dates|
    ensures forall k :: i - Streak(dates, i) < k <= i ==> dates[k] - dates[k - 1] <= 2
    ensures Streak(dates, i) < i ==> dates[i - Streak(dates, i)] - dates[i - Streak(dates, i) - 1] > 2
  {
    if i > 0 && dates[i] - dates[i - 1] <= 2 {
      StreakIsLongestRun(dates, i - 1);
    }
  }

  // ---- season period (lines 296-312) ---------------------------------------

  /** Number of rows among the first `j` in row `i`'s season. */
  function SameSeasonBefore(seasons: seq<string>, i: nat, j: nat): (r: nat)
    requires i < |seasons| && j <= |seasons|
    ensures r <= j
  {
    if j == 0 then 0
    else SameSeasonBefore(seasons, i, j - 1) + (if seasons[j - 1] == seasons[i] then 1 else 0)
  }

  /** The latest row before the `j`-th in row `i`'s season, if any. */
  function PrevSameSeason(seasons: seq<string>, i: nat, j: nat): (r: Option<nat>)
    requires i < |seasons| && j <= |seasons|
    ensures r.Some? ==> r.value < j && seasons[r.value] == seasons[i]
    ensures r.Some? ==> forall k :: r.value < k < j ==> seasons[k] != seasons[i]
    ensures r.None? ==> forall k :: 0 <= k < j ==> seasons[k] != seasons[i]
  {
    if j == 0 then None
    else if seasons[j - 1] == seasons[i] then Some(j - 1)
    else PrevSameSeason(seasons, i, j - 1)
  }

  /**
   * `games_played_season`: `cumcount() + 1` within the player's season,
   * shifted by one row of that season, 0 on the season's first row.
   */
  function GamesPlayedSeason(seasons: seq<string>, i: nat): nat
    requires i < |seasons|
  {
    match PrevSameSeason(seasons, i, i)
    case None => 0
    case Some(p) => SameSeasonBefore(seasons, p, p) + 1
  }

  lemma {:induction false} SameSeasonAgrees(seasons: seq<string>, i: nat, p: nat, j: nat)
    requires i < |seasons| && p < |seasons| && j <= |seasons| && seasons[p] == seasons[i]
    ensures SameSeasonBefore(seasons, p, j) == SameSeasonBefore(seasons, i, j)
  {
    if j > 0 {
      SameSeasonAgrees(seasons, i, p, j - 1);
    }
  }

  lemma {:induction false} NoneBetween(seasons: seq<string>, i: nat, p: nat, j: nat)
    requires i < |seasons| && p < j <= |seasons|
    requires forall k :: p < k < j ==> seasons[k] != seasons[i]
    ensures SameSeasonBefore(seasons, i, j) == SameSeasonBefore(seasons, i, p + 1)
  {
    if j > p + 1 {
      NoneBetween(seasons, i, p, j - 1);
    }
  }

  lemma {:induction false} NoneAtAll(seasons: seq<string>, i: nat, j: nat)
    requires i < |seasons| && j <= |seasons|
    requires forall k :: 0 <= k < j ==> seasons[k] != seasons[i]
    ensures SameSeasonBefore(seasons, i, j) == 0
  {
    if j > 0 {
      NoneAtAll(seasons, i, j - 1);
    }
  }

  /** The shifted cumulative count is the number of the player's earlier rows in the same season. */
  lemma GamesPlayedSeasonCountsEarlierRows(seasons: seq<string>, i: nat)
    requires i < |seasons|
    ensures GamesPlayedSeason(seasons, i) == SameSeasonBefore(seasons, i, i)
  {
    match PrevSameSeason(seasons, i, i)
    case None =>
      NoneAtAll(seasons, i, i);
    case Some(p) =>
      SameSeasonAgrees(seasons, i, p, p);
      NoneBetween(seasons, i, p, i);
  }

  /** `is_early_season`, `is_mid_season`, `is_late_season`. */
  function SeasonFlags(played: nat): (r: (int, int, int))
    ensures r.0 + r.1 + r.2 == 1
    ensures 0 <= r.0 <= 1 && 0 <= r.1 <= 1 && 0 <= r.2 <= 1
    ensures r.0 == 1 <==> played <= 20
    ensures r.1 == 1 <==> 20 < played <= 60
    ensures r.2 == 1 <==> played > 60
  {
    (if played <= 20 then 1 else 0,
     if played > 20 && played <= 60 then 1 else 0,
     if played > 60 then 1 else 0)
  }

  // ---- position (lines 122-143) --------------------------------------------

  /** `map_position_to_one_hot` after `fillna('G')`. */
  function BatchPosition(pos: Option<string>): (r: OnlineFeatures.Position)
    ensures pos.None? ==> r == OnlineFeatures.Guard
  {
    MissingIsGuard();
    var p := Strip(Upper(pos.GetOr("G")));
    if OnlineFeatures.CenterLike(p) then OnlineFeatures.Center
    else if OnlineFeatures.ForwardLike(p) then OnlineFeatures.Forward
    else if Contains(p, "GUARD") || p == "G" || p == "G-F" then OnlineFeatures.Guard
    else OnlineFeatures.Guard
  }

  /** The filler "G" is a plain guard. */
  lemma MissingIsGuard()
    ensures Strip(Upper("G")) == "G"
    ensures !OnlineFeatures.CenterLike("G") && !OnlineFeatures.ForwardLike("G")
  {
    assert Upper("G") == "G";
    assert !Contains("", "CENTER") && !Contains("", "FORWARD") && !Contains("", "GUARD");
  }

  /** The batch and online builders classify every position, a missing one included, the same way. */
  lemma BatchPositionMatchesOnline(pos: Option<string>)
    ensures BatchPosition(pos) == OnlineFeatures.PositionOf(pos)
  {
    if pos.Some? {
      assert OnlineFeatures.NormalisedPosition(pos) == Strip(Upper(pos.GetOr("G")));
    }
  }

  /** The batch one-hot encoding has exactly one 1, and a missing position is a guard. */
  lemma BatchOneHot(pos: Option<string>)
    ensures var h := OnlineFeatures.OneHot(BatchPosition(pos)); h.0 + h.1 + h.2 == 1
    ensures pos.None? ==> OnlineFeatures.OneHot(BatchPosition(pos)) == (1, 0, 0)
  {
  }
  // ---- the whole table ------------------------------------------------------

  /** One player-game row of the loaded table; dates are day numbers. */
  datatype Row = Row(player: int, team: int, game: string, date: int, season: string,
                     gameType: string, homeTeam: int, awayTeam: int, minutes: real, points: real)

  // ---- star teammates (lines 207-238) --------------------------------------

  /** The points of a (player, team, season) group's rows with at least 15 minutes, in table order. */
  function StarPoints(rows: seq<Row>, player: int, team: int, season: string): (r: seq<real>)
    ensures |r| <= |rows|
  {
    if rows == [] then []
    else
      var last := rows[|rows| - 1];
      StarPoints(rows[..|rows| - 1], player, team, season)
        + (if last.player == player && last.team == team && last.season == season && last.minutes >= 15.0
           then [last.points] else [])
  }

  /** A star: a (player, team, season) group whose 15-minute games average at least 20 points. */
  predicate Qualifies(rows: seq<Row>, player: int, team: int, season: string) {
    var pts := StarPoints(rows, player, team, season);
    |pts| > 0 && Numeric.Mean(pts) >= 20.0
  }

  /** A row of `team_season_stars`. */
  datatype Star = Star(player: int, team: int, season: string, ppg: real)

  /** `team_season_stars` lists every qualifying group, with its average, and nothing else. */
  predicate StarTable(rows: seq<Row>, stars: seq<Star>) {
    (forall j :: 0 <= j < |stars| ==>
       Qualifies(rows, stars[j].player, stars[j].team, stars[j].season)
       && stars[j].ppg == Numeric.Mean(StarPoints(rows, stars[j].player, stars[j].team, stars[j].season)))
    && (forall k :: 0 <= k < |rows| && Qualifies(rows, rows[k].player, rows[k].team, rows[k].season) ==>
          exists j :: 0 <= j < |stars| && stars[j].player == rows[k].player
                      && stars[j].team == rows[k].team && stars[j].season == rows[k].season)
  }

  /** `star_games`: the games the star played at least 15 minutes of for that team and season. */
  function StarGames(rows: seq<Row>, s: Star): set<string> {
    set r | r in rows && r.player == s.player && r.team == s.team && r.season == s.season && r.minutes >= 15.0 :: r.game
  }

  /** `teammate_mask`: a teammate's row in a game the star did not play (15 minutes of). */
  predicate Masked(rows: seq<Row>, s: Star, r: Row) {
    r.team == s.team && r.season == s.season && r.player != s.player && r.game !in StarGames(rows, s)
  }

  /** `(star_teammate_out, star_teammate_ppg)` of a row after the stars are applied in order: the last masking star wins. */
  function StarOut(rows: seq<Row>, stars: seq<Star>, r: Row): (bool, real) {
    if stars == [] then (false, 0.0)
    else
      var s := stars[|stars| - 1];
      if Masked(rows, s, r) then (true, s.ppg) else StarOut(rows, stars[..|stars| - 1], r)
  }

  /** The loop over `team_season_stars`, setting both columns on every masked row. */
  method MarkStarTeammates(rows: seq<Row>, stars: seq<Star>) returns (out: seq<bool>, ppg: seq<real>)
    ensures |out| == |rows| && |ppg| == |rows|
    ensures forall k :: 0 <= k < |rows| ==> (out[k], ppg[k]) == StarOut(rows, stars, rows[k])
  {
    out := seq(|rows|, _ => false);
    ppg := seq(|rows|, _ => 0.0);
    for j := 0 to |stars|
      invariant |out| == |rows| && |ppg| == |rows|
      invariant forall k :: 0 <= k < |rows| ==> (out[k], ppg[k]) == StarOut(rows, stars[..j], rows[k])
    {
      var s := stars[j];
      var games := StarGames(rows, s);
      assert stars[..j + 1][..j] == stars[..j];
      for k := 0 to |rows|
        invariant |out| == |rows| && |ppg| == |rows|
        invariant forall q :: 0 <= q < k ==> (out[q], ppg[q]) == StarOut(rows, stars[..j + 1], rows[q])
        invariant forall q :: k <= q < |rows| ==> (out[q], ppg[q]) == StarOut(rows, stars[..j], rows[q])
      {
        var r := rows[k];
        if r.team == s.team && r.season == s.season && r.player != s.player && r.game !in games {
          out := out[k := true];
          ppg := ppg[k := s.ppg];
        }
      }
    }
    assert stars[..|stars|] == stars;
  }

  /** A row is flagged exactly when some listed star masks it, and then it carries that star's average. */
  lemma {:induction false} StarOutIsSomeStar(rows: seq<Row>, stars: seq<Star>, r: Row)
    ensures StarOut(rows, stars, r).0 <==> exists j :: 0 <= j < |stars| && Masked(rows, stars[j], r)
    ensures StarOut(rows, stars, r).0 ==>
      exists j :: 0 <= j < |stars| && Masked(rows, stars[j], r) && StarOut(rows, stars, r).1 == stars[j].ppg
    ensures !StarOut(rows, stars, r).0 ==> StarOut(rows, stars, r).1 == 0.0
  {
    if stars != [] {
      var front := stars[..|stars| - 1];
      StarOutIsSomeStar(rows, front, r);
      assert forall j :: 0 <= j < |front| ==> front[j] == stars[j];
    }
  }

  lemma {:induction false} StarPointsHaveRow(rows: seq<Row>, player: int, team: int, season: string)
    requires |StarPoints(rows, player, team, season)| > 0
    ensures exists k :: 0 <= k < |rows| && rows[k].player == player && rows[k].team == team && rows[k].season == season
  {
    var last := rows[|rows| - 1];
    if !(last.player == player && last.team == team && last.season == season && last.minutes >= 15.0) {
      var front := rows[..|rows| - 1];
      StarPointsHaveRow(front, player, team, season);
      var k :| 0 <= k < |front| && front[k].player == player && front[k].team == team && front[k].season == season;
      assert rows[k] == front[k];
    }
  }

  /** A row masked by a qualifying group in the table: the right-hand side of the star characterisation. */
  predicate MaskedByQualifying(rows: seq<Row>, r: Row) {
    exists k :: 0 <= k < |rows| && Qualifies(rows, rows[k].player, rows[k].team, rows[k].season)
                && Masked(rows, Star(rows[k].player, rows[k].team, rows[k].season, 0.0), r)
  }

  lemma FlaggedIsMaskedByQualifying(rows: seq<Row>, stars: seq<Star>, r: Row)
    requires StarTable(rows, stars)
    requires StarOut(rows, stars, r).0
    ensures MaskedByQualifying(rows, r)
    ensures StarOut(rows, stars, r).1 >= 20.0
  {
    StarOutIsSomeStar(rows, stars, r);
    var j :| 0 <= j < |stars| && Masked(rows, stars[j], r) && StarOut(rows, stars, r).1 == stars[j].ppg;
    var s := stars[j];
    StarPointsHaveRow(rows, s.player, s.team, s.season);
    var k :| 0 <= k < |rows| && rows[k].player == s.player && rows[k].team == s.team && rows[k].season == s.season;
    var t := Star(rows[k].player, rows[k].team, rows[k].season, 0.0);
    SameGroupSameGames(rows, s, t);
    assert Qualifies(rows, s.player, s.team, s.season);
    assert Masked(rows, t, r);
    assert s.ppg >= 20.0;
  }

  /** The games a star played depend only on its player, team and season. */
  lemma SameGroupSameGames(rows: seq<Row>, s: Star, t: Star)
    requires s.player == t.player && s.team == t.team && s.season == t.season
    ensures StarGames(rows, s) == StarGames(rows, t)
  {
  }

  lemma UnflaggedIsNotMasked(rows: seq<Row>, stars: seq<Star>, r: Row)
    requires StarTable(rows, stars)
    requires !StarOut(rows, stars, r).0
    ensures !MaskedByQualifying(rows, r)
  {
    StarOutIsSomeStar(rows, stars, r);
    forall k | 0 <= k < |rows| && Qualifies(rows, rows[k].player, rows[k].team, rows[k].season)
      ensures !Masked(rows, Star(rows[k].player, rows[k].team, rows[k].season, 0.0), r)
    {
      var j :| 0 <= j < |stars| && stars[j].player == rows[k].player
               && stars[j].team == rows[k].team && stars[j].season == rows[k].season;
      assert !Masked(rows, stars[j], r);
      SameGroupSameGames(rows, stars[j], Star(rows[k].player, rows[k].team, rows[k].season, 0.0));
    }
  }

  /**
   * With the star table the source builds, a row is flagged iff a group of
   * the table qualifies as a star (15-minute average at least 20) and masks
   * it; a flagged row's `star_teammate_ppg` is then at least 20.
   */
  lemma StarOutNeedsQualifyingStar(rows: seq<Row>, stars: seq<Star>, r: Row)
    requires StarTable(rows, stars)
    ensures StarOut(rows, stars, r).0 <==> MaskedByQualifying(rows, r)
    ensures StarOut(rows, stars, r).0 ==> StarOut(rows, stars, r).1 >= 20.0
  {
    if StarOut(rows, stars, r).0 {
      FlaggedIsMaskedByQualifying(rows, stars, r);
    } else {
      UnflaggedIsNotMasked(rows, stars, r);
    }
  }

  /** Number of rows among the first `j` of `player` that are flagged. */
  function PlayerFlags(rows: seq<Row>, out: seq<bool>, player: int, j: nat): (r: nat)
    requires |out| == |rows| && j <= |rows|
    ensures r <= j
  {
    if j == 0 then 0
    else PlayerFlags(rows, out, player, j - 1) + (if rows[j - 1].player == player && out[j - 1] then 1 else 0)
  }

  /** `games_without_star`: the running sum of the player's flags, the row itself included. */
  function GamesWithoutStar(rows: seq<Row>, out: seq<bool>, k: nat): nat
    requires |out| == |rows| && k < |rows|
  {
    PlayerFlags(rows, out, rows[k].player, k + 1)
  }

  lemma {:induction false} NoFlagsNoCount(rows: seq<Row>, out: seq<bool>, player: int, j: nat)
    requires |out| == |rows| && j <= |rows|
    requires forall q :: 0 <= q < j && rows[q].player == player ==> !out[q]
    ensures PlayerFlags(rows, out, player, j) == 0
  {
    if j > 0 {
      NoFlagsNoCount(rows, out, player, j - 1);
    }
  }

  lemma Inhabited(s: set<int>)
    requires s != {}
    ensures exists x :: x in s
  {
    if forall x :: x !in s {
      assert false;
    }
  }

  /** Row `q`'s count is final for the players in `players` and still 0 for the others. */
  predicate Counted(rows: seq<Row>, out: seq<bool>, c: nat, players: set<int>, q: nat)
    requires |out| == |rows| && q < |rows|
  {
    c == (if rows[q].player in players then GamesWithoutStar(rows, out, q) else 0)
  }

  /** `df.loc[df['player_id'] == p, 'games_without_star'] = cumsum` for one player. */
  method AddPlayerCounts(rows: seq<Row>, out: seq<bool>, count: seq<nat>, done: set<int>, p: int)
    returns (next: seq<nat>)
    requires |out| == |rows| && |count| == |rows|
    requires forall q :: 0 <= q < |rows| ==> Counted(rows, out, count[q], done, q)
    ensures |next| == |rows|
    ensures forall q :: 0 <= q < |rows| ==> Counted(rows, out, next[q], done + {p}, q)
  {
    next := count;
    var running := 0;
    for k := 0 to |rows|
      invariant |next| == |rows|
      invariant running == PlayerFlags(rows, out, p, k)
      invariant forall q :: 0 <= q < k ==> Counted(rows, out, next[q], done + {p}, q)
      invariant forall q :: k <= q < |rows| ==> Counted(rows, out, next[q], done, q)
    {
      if rows[k].player == p {
        if out[k] {
          running := running + 1;
        }
        next := next[k := running];
        assert running == GamesWithoutStar(rows, out, k);
      }
      assert Counted(rows, out, next[k], done + {p}, k);
    }
  }

  /** The players with at least one flagged row. */
  function FlaggedPlayers(rows: seq<Row>, out: seq<bool>): set<int>
    requires |out| == |rows|
  {
    set k | 0 <= k < |rows| && out[k] :: rows[k].player
  }

  /** The per-player cumulative sums, one flagged player at a time. */
  method CountGamesWithoutStar(rows: seq<Row>, out: seq<bool>) returns (count: seq<nat>)
    requires |out| == |rows|
    ensures |count| == |rows|
    ensures forall k :: 0 <= k < |rows| ==> count[k] == GamesWithoutStar(rows, out, k)
  {
    count := seq(|rows|, _ => 0);
    var flagged := FlaggedPlayers(rows, out);
    var todo, done := flagged, {};
    while todo != {}
      invariant todo + done == flagged && todo !! done
      invariant |count| == |rows|
      invariant forall q :: 0 <= q < |rows| ==> Counted(rows, out, count[q], done, q)
      decreases todo
    {
      Inhabited(todo);
      var p :| p in todo;
      count := AddPlayerCounts(rows, out, count, done, p);
      todo, done := todo - {p}, done + {p};
    }
    CountedAll(rows, out, count, flagged);
  }

  /** Once every flagged player is counted, every row holds its count. */
  lemma CountedAll(rows: seq<Row>, out: seq<bool>, count: seq<nat>, flagged: set<int>)
    requires |out| == |rows| && |count| == |rows|
    requires flagged == FlaggedPlayers(rows, out)
    requires forall q :: 0 <= q < |rows| ==> Counted(rows, out, count[q], flagged, q)
    ensures forall k :: 0 <= k < |rows| ==> count[k] == GamesWithoutStar(rows, out, k)
  {
    forall k | 0 <= k < |rows|
      ensures count[k] == GamesWithoutStar(rows, out, k)
    {
      assert Counted(rows, out, count[k], flagged, k);
      if rows[k].player !in flagged {
        UnflaggedPlayer(rows, out, flagged, k);
      }
    }
  }

  lemma UnflaggedPlayer(rows: seq<Row>, out: seq<bool>, flagged: set<int>, k: nat)
    requires |out| == |rows| && k < |rows|
    requires flagged == FlaggedPlayers(rows, out)
    requires rows[k].player !in flagged
    ensures GamesWithoutStar(rows, out, k) == 0
  {
    assert forall q :: 0 <= q < k + 1 && rows[q].player == rows[k].player ==> !out[q];
    NoFlagsNoCount(rows, out, rows[k].player, k + 1);
  }

  lemma {:induction false} PlayerFlagsMonotone(rows: seq<Row>, out: seq<bool>, player: int, i: nat, j: nat)
    requires |out| == |rows| && i <= j <= |rows|
    ensures PlayerFlags(rows, out, player, i) <= PlayerFlags(rows, out, player, j)
  {
    if i < j {
      PlayerFlagsMonotone(rows, out, player, i, j - 1);
    }
  }

  /** `games_without_star` never decreases along a player's rows, and a flagged row counts itself. */
  lemma GamesWithoutStarNeverDecreases(rows: seq<Row>, out: seq<bool>, i: nat, k: nat)
    requires |out| == |rows| && i <= k < |rows| && rows[i].player == rows[k].player
    ensures GamesWithoutStar(rows, out, i) <= GamesWithoutStar(rows, out, k)
    ensures out[k] ==> GamesWithoutStar(rows, out, k) >= 1
  {
    PlayerFlagsMonotone(rows, out, rows[k].player, i + 1, k + 1);
  }

  // ---- team games and season progress (lines 296-312) ----------------------

  /** The latest row before the `j`-th, in table order, of row `i`'s team and season. */
  function PrevTeamRow(rows: seq<Row>, i: nat, j: nat): (r: Option<nat>)
    requires i < |rows| && j <= |rows|
    ensures r.Some? ==> r.value < j && rows[r.value].team == rows[i].team && rows[r.value].season == rows[i].season
    ensures r.Some? ==> forall k :: r.value < k < j ==> !(rows[k].team == rows[i].team && rows[k].season == rows[i].season)
    ensures r.None? ==> forall k :: 0 <= k < j ==> !(rows[k].team == rows[i].team && rows[k].season == rows[i].season)
  {
    if j == 0 then None
    else if rows[j - 1].team == rows[i].team && rows[j - 1].season == rows[i].season then Some(j - 1)
    else PrevTeamRow(rows, i, j - 1)
  }

  /** `rank(method='dense')` of a date among the team-season group's dates: 1 + the distinct earlier dates. */
  function DenseRank(rows: seq<Row>, team: int, season: string, date: int): (r: nat)
    ensures r >= 1
  {
    |set x | x in rows && x.team == team && x.season == season && x.date < date :: x.date| + 1
  }

  /** `team_games_played`: the dense rank carried by the group's previous row in table order, 0 on its first. */
  function TeamGamesPlayed(rows: seq<Row>, i: nat): nat
    requires i < |rows|
  {
    match PrevTeamRow(rows, i, i)
    case None => 0
    case Some(q) => DenseRank(rows, rows[q].team, rows[q].season, rows[q].date)
  }

  /** `games_remaining`: 82 less the team's games, clipped at 0. */
  function GamesRemaining(rows: seq<Row>, i: nat): (r: int)
    requires i < |rows|
    ensures 0 <= r <= 82
    ensures r == 82 <==> forall k :: 0 <= k < i ==> !(rows[k].team == rows[i].team && rows[k].season == rows[i].season)
  {
    var played := TeamGamesPlayed(rows, i);
    if 82 - played < 0 then 0 else 82 - played
  }

  /** The first date of a season over the whole table. */
  function SeasonStart(rows: seq<Row>, season: string): (r: Option<int>)
    ensures r.Some? <==> exists k :: 0 <= k < |rows| && rows[k].season == season
    ensures r.Some? ==> forall k :: 0 <= k < |rows| && rows[k].season == season ==> r.value <= rows[k].date
    ensures r.Some? ==> exists k :: 0 <= k < |rows| && rows[k].season == season && rows[k].date == r.value
  {
    if rows == [] then None
    else
      var last := rows[|rows| - 1];
      var front := SeasonStart(rows[..|rows| - 1], season);
      assert forall k :: 0 <= k < |rows| - 1 ==> rows[..|rows| - 1][k] == rows[k];
      if last.season != season then front
      else if front.Some? && front.value <= last.date then front
      else Some(last.date)
  }

  function Clip(x: real, lo: real, hi: real): real {
    if x < lo then lo else if x > hi then hi else x
  }

  /** `season_progress`: days since the season's first game over 180, clipped to [0, 1]. */
  function SeasonProgress(rows: seq<Row>, i: nat): (r: real)
    requires i < |rows|
    ensures 0.0 <= r <= 1.0
  {
    var start := SeasonStart(rows, rows[i].season);
    Clip((rows[i].date - start.value) as real / 180.0, 0.0, 1.0)
  }

  /** The lower clip never applies: within the first 180 days the progress is exactly the elapsed fraction. */
  lemma SeasonProgressUnclipped(rows: seq<Row>, i: nat)
    requires i < |rows|
    ensures var start := SeasonStart(rows, rows[i].season).value;
      start <= rows[i].date
      && (rows[i].date - start <= 180 ==> SeasonProgress(rows, i) == (rows[i].date - start) as real / 180.0)
  {
  }

  // ---- home, opponent and travel (lines 249-262, 314-343, 531-545) ---------

  predicate IsHome(r: Row) {
    r.team == r.homeTeam
  }

  function Opponent(r: Row): int {
    if IsHome(r) then r.awayTeam else r.homeTeam
  }

  const TzOffsets: map<string, int> := map[
    "America/New_York" := -5, "America/Chicago" := -6, "America/Denver" := -7,
    "America/Los_Angeles" := -8, "America/Phoenix" := -7, "America/Anchorage" := -9,
    "Pacific/Honolulu" := -10, "America/Toronto" := -5]

  /**
   * A team's UTC offset: its timezone's, or -6 when the timezone is not in
   * the table or the team has none (`teamTz` holds the teams whose timezone
   * is not NULL).
   */
  function TeamOffset(teamTz: map<int, string>, team: int): (r: int)
    ensures -10 <= r <= -5
    ensures team !in teamTz ==> r == TzOffsets["America/Chicago"]
  {
    if team in teamTz && teamTz[team] in TzOffsets then TzOffsets[teamTz[team]] else -6
  }

  datatype Travel = Travel(difference: int, westToEast: bool, eastToWest: bool)

  /** `tz_difference`, `west_to_east`, `east_to_west`. */
  function TravelOf(r: Row, teamTz: map<int, string>): (t: Travel)
    ensures -5 <= t.difference <= 5
    ensures !(t.westToEast && t.eastToWest)
    ensures IsHome(r) ==> !t.westToEast && !t.eastToWest
    ensures t.westToEast <==> !IsHome(r) && TeamOffset(teamTz, Opponent(r)) > TeamOffset(teamTz, r.team)
    ensures t.eastToWest <==> !IsHome(r) && TeamOffset(teamTz, Opponent(r)) < TeamOffset(teamTz, r.team)
  {
    var diff := TeamOffset(teamTz, Opponent(r)) - TeamOffset(teamTz, r.team);
    Travel(diff, !IsHome(r) && diff > 0, !IsHome(r) && diff < 0)
  }

  /** Day number of a proleptic Gregorian date, counted from 1970-01-01. */
  function DayNumber(y: int, m: int, d: int): int
    requires 1 <= m <= 12
  {
    var y1 := if m <= 2 then y - 1 else y;
    var era := y1 / 400;
    var yoe := y1 - era * 400;
    var mp := (m + 9) % 12;
    var doy := (153 * mp + 2) / 5 + d - 1;
    var doe := yoe * 365 + yoe / 4 - yoe / 100 + doy;
    era * 146097 + doe - 719468
  }

  /** The All-Star break of each season the table knows. */
  const AllStarBreaks: map<string, int> := map[
    "2020-21" := DayNumber(2021, 3, 7), "2021-22" := DayNumber(2022, 2, 20),
    "2022-23" := DayNumber(2023, 2, 19), "2023-24" := DayNumber(2024, 2, 18),
    "2024-25" := DayNumber(2025, 2, 16), "2025-26" := DayNumber(2026, 2, 15)]

  /** `days_since_asb`: days after the season's break clipped to [-365, 365], 0 for a season not in the table. */
  function DaysSinceBreak(r: Row): (d: int)
    ensures -365 <= d <= 365
    ensures r.season !in AllStarBreaks ==> d == 0
  {
    if r.season !in AllStarBreaks then 0
    else
      var days := r.date - AllStarBreaks[r.season];
      if days < -365 then -365 else if days > 365 then 365 else days
  }

  /** `post_asb_bounce`. */
  predicate PostBreakBounce(r: Row) {
    0 < DaysSinceBreak(r) <= 14
  }

  /** The bounce is the first two weeks after a known break; the clipping never interferes. */
  lemma PostBreakBounceIsTwoWeeks(r: Row)
    ensures PostBreakBounce(r) <==>
      r.season in AllStarBreaks && 0 < r.date - AllStarBreaks[r.season] <= 14
  {
  }

  /** `altitude_away`; `altitude` holds the arenas whose altitude is not NULL. */
  predicate AltitudeAway(r: Row, altitude: map<int, real>) {
    !IsHome(r) && Opponent(r) in altitude && altitude[Opponent(r)] > 3000.0
  }

  // ---- playoff features (lines 76, 240-247) --------------------------------

  /** `is_playoff`: the game type compared with the literal 'playoff'. */
  predicate IsPlayoff(gameType: string) {
    gameType == "playoff"
  }

  /** Number of rows among the first `j` of a history that are playoff games. */
  function PlayoffsBefore(types: seq<string>, j: nat): (r: nat)
    requires j <= |types|
    ensures r <= j
  {
    if j == 0 then 0 else PlayoffsBefore(types, j - 1) + (if IsPlayoff(types[j - 1]) then 1 else 0)
  }

  /** `playoff_games_career`: the running count of playoff rows, the row itself included. */
  function PlayoffGamesCareer(types: seq<string>, i: nat): nat
    requires i < |types|
  {
    PlayoffsBefore(types, i + 1)
  }

  /** The points of a player's rows whose playoff flag is `playoff`. */
  function PointsWhere(points: seq<real>, types: seq<string>, playoff: bool): (r: seq<real>)
    requires |points| == |types|
    ensures |r| <= |points|
  {
    if points == [] then []
    else
      PointsWhere(points[..|points| - 1], types[..|types| - 1], playoff)
        + (if IsPlayoff(types[|types| - 1]) == playoff then [points[|points| - 1]] else [])
  }

  /** `playoff_performance_boost`: playoff minus regular mean, 0 when the player lacks either. */
  function PlayoffBoost(points: seq<real>, types: seq<string>): real
    requires |points| == |types|
  {
    var po, reg := PointsWhere(points, types, true), PointsWhere(points, types, false);
    if |po| > 0 && |reg| > 0 then Numeric.Mean(po) - Numeric.Mean(reg) else 0.0
  }

  lemma {:induction false} NoPlayoffPoints(points: seq<real>, types: seq<string>)
    requires |points| == |types|
    requires forall k :: 0 <= k < |types| ==> !IsPlayoff(types[k])
    ensures PointsWhere(points, types, true) == []
  {
    if points != [] {
      var tf := types[..|types| - 1];
      assert forall k :: 0 <= k < |tf| ==> tf[k] == types[k];
      NoPlayoffPoints(points[..|points| - 1], tf);
    }
  }

  lemma {:induction false} NoPlayoffsCounted(types: seq<string>, j: nat)
    requires j <= |types|
    requires forall k :: 0 <= k < |types| ==> !IsPlayoff(types[k])
    ensures PlayoffsBefore(types, j) == 0
  {
    if j > 0 {
      NoPlayoffsCounted(types, j - 1);
    }
  }

  /** Without a row typed exactly 'playoff', both playoff features are 0 on every row. */
  lemma PlayoffFeaturesVanish(points: seq<real>, types: seq<string>, i: nat)
    requires |points| == |types| && i < |types|
    requires forall k :: 0 <= k < |types| ==> !IsPlayoff(types[k])
    ensures PlayoffGamesCareer(types, i) == 0
    ensures PlayoffBoost(points, types) == 0.0
  {
    NoPlayoffsCounted(types, i + 1);
    NoPlayoffPoints(points, types);
  }

  /**
   * The game collector stores 'playoffs', 'play_in' or 'regular_season', so
   * on the histories it produces both playoff features are 0 on every row.
   */
  lemma StoredPlayoffFeaturesVanish(points: seq<real>, gameIds: seq<string>, i: nat)
    requires |points| == |gameIds| && i < |gameIds|
    ensures var types := seq(|gameIds|, k requires 0 <= k < |gameIds| => CollectGames.GameType(gameIds[k]));
      PlayoffGamesCareer(types, i) == 0 && PlayoffBoost(points, types) == 0.0
  {
    var types := seq(|gameIds|, k requires 0 <= k < |gameIds| => CollectGames.GameType(gameIds[k]));
    assert forall k :: 0 <= k < |types| ==> !IsPlayoff(types[k]);
    PlayoffFeaturesVanish(points, types, i);
  }

  // ---- minutes trend (lines 107-119) ---------------------------------------

  predicate Constant(xs: seq<real>) {
    forall k :: 0 <= k < |xs| ==> xs[k] == xs[0]
  }

  /**
   * `calc_minutes_trend`, broadcast to every row of the player: the last 10
   * values of the shifted series. With at most 10 rows the shift's leading
   * NaN is among them, so the standard deviation is NaN and the trend 0;
   * otherwise the fitted slope (`slope`, left abstract) of the 10 values
   * before the last row, or 0 when they are all equal.
   */
  function MinutesTrend(minutes: seq<real>, slope: seq<real> -> real): (r: real)
    ensures |minutes| <= 10 ==> r == 0.0
  {
    if |minutes| <= 10 then 0.0
    else
      var recent := minutes[|minutes| - 11..|minutes| - 1];
      if Constant(recent) then 0.0 else slope(recent)
  }

  /** The trend never looks at the player's last row nor at rows older than the last eleven. */
  lemma MinutesTrendIgnoresLastRow(a: seq<real>, b: seq<real>, slope: seq<real> -> real)
    requires |a| == |b| > 10
    requires forall k :: |a| - 11 <= k < |a| - 1 ==> a[k] == b[k]
    ensures MinutesTrend(a, slope) == MinutesTrend(b, slope)
  {
    assert a[|a| - 11..|a| - 1] == b[|b| - 11..|b| - 1];
  }
}
