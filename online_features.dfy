/**
 * The features of one player for one upcoming game, built from the player's
 * prior games of the current season (`build_features_for_player`,
 * src/predictions/predict_games.py), and what the prediction loop of
 * `predict_upcoming_games` does with them before and after the model: the
 * fallback for model columns the features lack, the clip to non-negative
 * values and the rounding.
 *
 * The prior games are the query's result: at most 20 completed games of
 * the current season before the target date, newest first. The team,
 * opponent and position-defence lookups are left to the database; the
 * lookups the feature values depend on (the position, the arena altitude,
 * the star teammates, the playoff history) are inputs. The `np.exp` decay
 * factors and the `np.polyfit` slope are inputs too.
 */
module OnlineFeatures {
  import opened Wrappers
  import opened Text
  import Numeric
  import Confidence
  import Tuning

  datatype Stat =
    | Points | Rebounds | Assists | Steals | Blocks | Turnovers | ThreesMade
    | Minutes | FgMade | FgAttempted | ThreesAttempted | FtMade | FtAttempted
    | Usage | TrueShooting | OffRating | DefRating

  /** The seven predicted stats, in the order the features list them. */
  const CountingStats: seq<Stat> := [Points, Rebounds, Assists, Steals, Blocks, Turnovers, ThreesMade]

  /** The three window lengths. */
  const WindowSizes: seq<nat> := [5, 10, 20]

  /** One prior game: its date as a day number, whether the player started, and the box score. */
  datatype PriorGame = PriorGame(date: int, isStarter: bool, value: Stat -> real)

  /** The order the query returns the games in: newest first. */
  predicate NewestFirst(recent: seq<PriorGame>) {
    forall i, j :: 0 <= i < j < |recent| ==> recent[j].date <= recent[i].date
  }

  /** `recent_games.head(w)`. */
  function Window(recent: seq<PriorGame>, w: nat): (r: seq<PriorGame>)
    ensures |r| == if w < |recent| then w else |recent|
  {
    if w < |recent| then recent[..w] else recent
  }

  /** A window holds the newest games: none of the games left out is newer than one kept. */
  lemma WindowIsNewest(recent: seq<PriorGame>, w: nat, i: nat, j: nat)
    requires NewestFirst(recent)
    requires i < |Window(recent, w)| && |Window(recent, w)| <= j < |recent|
    ensures recent[j].date <= Window(recent, w)[i].date
  {
  }

  function Values(games: seq<PriorGame>, s: Stat): (r: seq<real>)
    ensures |r| == |games|
  {
    seq(|games|, i requires 0 <= i < |games| => games[i].value(s))
  }

  function Total(games: seq<PriorGame>, s: Stat): real {
    Numeric.Sum(Values(games, s))
  }

  /** `window_games[stat].mean()`. */
  function WindowMean(games: seq<PriorGame>, s: Stat): real
    requires |games| > 0
  {
    Numeric.Mean(Values(games, s))
  }

  // ---- decay weights (lines 754-765) ---------------------------------------

  /**
   * `np.exp(-0.1 * k)` for k = 0, 1, …: positive and strictly decreasing.
   * Twenty of them cover the longest window.
   */
  predicate DecayFactors(decay: seq<real>) {
    |decay| >= 20
    && (forall k :: 0 <= k < |decay| ==> decay[k] > 0.0)
    && (forall a, b :: 0 <= a < b < |decay| ==> decay[b] < decay[a])
  }

  lemma DecaySumPositive(decay: seq<real>, n: nat)
    requires DecayFactors(decay) && 0 < n <= |decay|
    ensures Numeric.Sum(decay[..n]) > 0.0
  {
    var d := decay[..n];
    assert forall i :: 0 <= i < |d| ==> d[i] == decay[i];
    Numeric.SumNonNegative(d);
    assert d[0] != 0.0;
  }

  /**
   * `exp(-0.1 * arange(n)[::-1])` normalised: the game at position i (0 the
   * newest) gets factor n-1-i, so the oldest game of the window weighs most.
   */
  function Weights(n: nat, decay: seq<real>): (w: seq<real>)
    requires DecayFactors(decay) && 0 < n <= |decay|
    ensures |w| == n
  {
    DecaySumPositive(decay, n);
    Numeric.Scale(Numeric.Reverse(decay[..n]), 1.0 / Numeric.Sum(decay[..n]))
  }

  /** The weights sum to 1. */
  lemma WeightsSumToOne(n: nat, decay: seq<real>)
    requires DecayFactors(decay) && 0 < n <= |decay|
    ensures Numeric.Sum(Weights(n, decay)) == 1.0
  {
    DecaySumPositive(decay, n);
    Numeric.NormalisedSum(decay[..n]);
  }

  /** The weights are positive and grow from the newest game to the oldest. */
  lemma WeightsGrowWithAge(n: nat, decay: seq<real>)
    requires DecayFactors(decay) && 0 < n <= |decay|
    ensures forall i :: 0 <= i < n ==> Weights(n, decay)[i] > 0.0
    ensures forall i, j :: 0 <= i < j < n ==> Weights(n, decay)[i] < Weights(n, decay)[j]
  {
    DecaySumPositive(decay, n);
    var d := decay[..n];
    assert forall a, b :: 0 <= a < b < n ==> d[b] < d[a];
    assert forall k :: 0 <= k < n ==> d[k] > 0.0;
    Numeric.ScaledReverseIncreasing(d, 1.0 / Numeric.Sum(d));
  }

  /** `np.sum(window_games[stat].values * weights)`. */
  function WeightedMean(games: seq<PriorGame>, s: Stat, decay: seq<real>): real
    requires DecayFactors(decay) && 0 < |games| <= |decay|
  {
    Numeric.WeightedSum(Values(games, s), Weights(|games|, decay))
  }

  /** A weighted mean stays between the smallest and the largest value of the window. */
  lemma WeightedMeanBetween(games: seq<PriorGame>, s: Stat, decay: seq<real>, lo: real, hi: real)
    requires DecayFactors(decay) && 0 < |games| <= |decay|
    requires forall i :: 0 <= i < |games| ==> lo <= games[i].value(s) <= hi
    ensures lo <= WeightedMean(games, s, decay) <= hi
  {
    WeightsSumToOne(|games|, decay);
    WeightsGrowWithAge(|games|, decay);
    Numeric.ConvexCombination(Values(games, s), Weights(|games|, decay), lo, hi);
  }

  // ---- guarded ratios (lines 826-904) --------------------------------------

  /** `num / den if den > 0 else fallback`. */
  function GuardedRatio(num: real, den: real, fallback: real): (r: real)
    ensures den > 0.0 ==> r * den == num
    ensures den <= 0.0 ==> r == fallback
  {
    if den > 0.0 then num / den else fallback
  }

  /** `stat_sum / min_sum * 36 if min_sum > 0 else 0`. */
  function Per36(games: seq<PriorGame>, s: Stat): (r: real)
    ensures Total(games, Minutes) > 0.0 ==> r * Total(games, Minutes) == Total(games, s) * 36.0
    ensures Total(games, Minutes) <= 0.0 ==> r == 0.0
  {
    GuardedRatio(Total(games, s), Total(games, Minutes), 0.0) * 36.0
  }

  /** `reb_sum / (min_sum / 36) if min_sum > 0 else 0`. */
  function ReboundRate(games: seq<PriorGame>): real {
    var m := Total(games, Minutes);
    if m > 0.0 then Total(games, Rebounds) / (m / 36.0) else 0.0
  }

  /** The rebound rate is the rebounds per 36 minutes under another name. */
  lemma ReboundRateIsPer36(games: seq<PriorGame>)
    ensures ReboundRate(games) == Per36(games, Rebounds)
  {
    var m := Total(games, Minutes);
    if m > 0.0 {
      var r := Total(games, Rebounds);
      assert r / (m / 36.0) == r / m * 36.0;
    }
  }

  // ---- one window (lines 744-904) ------------------------------------------

  datatype WindowFeatures = WindowFeatures(
    size: nat,
    means: seq<real>, weighted: seq<real>,
    minutes: real, minutesWeighted: real,
    usage: real, usageWeighted: real,
    offRating: real, defRating: real, netRating: real,
    fgPct: real, threePct: real, ftPct: real, trueShooting: real,
    per36: seq<real>,
    astTo: real, ptsPerFga: real, ptsPerAst: real, rebRate: real)

  function WindowOf(recent: seq<PriorGame>, w: nat, decay: seq<real>): (f: WindowFeatures)
    requires DecayFactors(decay) && 0 < |recent| <= |decay| && w > 0
    ensures f.size == |Window(recent, w)|
    ensures |f.means| == |f.weighted| == |f.per36| == |CountingStats|
  {
    var g := Window(recent, w);
    WindowFeatures(
      |g|,
      seq(7, k requires 0 <= k < 7 => WindowMean(g, CountingStats[k])),
      seq(7, k requires 0 <= k < 7 => WeightedMean(g, CountingStats[k], decay)),
      WindowMean(g, Minutes), WeightedMean(g, Minutes, decay),
      WindowMean(g, Usage), WeightedMean(g, Usage, decay),
      WindowMean(g, OffRating), WindowMean(g, DefRating),
      WindowMean(g, OffRating) - WindowMean(g, DefRating),
      GuardedRatio(Total(g, FgMade), Total(g, FgAttempted), 0.0),
      GuardedRatio(Total(g, ThreesMade), Total(g, ThreesAttempted), 0.0),
      GuardedRatio(Total(g, FtMade), Total(g, FtAttempted), 0.0),
      WindowMean(g, TrueShooting),
      seq(7, k requires 0 <= k < 7 => Per36(g, CountingStats[k])),
      GuardedRatio(Total(g, Assists), Total(g, Turnovers), Total(g, Assists)),
      GuardedRatio(Total(g, Points), Total(g, FgAttempted), 0.0),
      GuardedRatio(Total(g, Points), Total(g, Assists), Total(g, Points)),
      ReboundRate(g))
  }

  /**
   * No ratio divides by zero: shooting percentages and per-36 rates are 0
   * when the window's denominator is 0, and assists per turnover and points
   * per assist fall back to the numerator sum.
   */
  lemma RatiosGuarded(recent: seq<PriorGame>, w: nat, decay: seq<real>)
    requires DecayFactors(decay) && 0 < |recent| <= |decay| && w > 0
    ensures var g, f := Window(recent, w), WindowOf(recent, w, decay);
      && (Total(g, FgAttempted) <= 0.0 ==> f.fgPct == 0.0 && f.ptsPerFga == 0.0)
      && (Total(g, ThreesAttempted) <= 0.0 ==> f.threePct == 0.0)
      && (Total(g, FtAttempted) <= 0.0 ==> f.ftPct == 0.0)
      && (Total(g, Minutes) <= 0.0 ==> f.rebRate == 0.0 && forall k :: 0 <= k < 7 ==> f.per36[k] == 0.0)
      && (Total(g, Turnovers) <= 0.0 ==> f.astTo == Total(g, Assists))
      && (Total(g, Assists) <= 0.0 ==> f.ptsPerAst == Total(g, Points))
  {
  }

  // ---- position (lines 1005-1037) --------------------------------------------

  datatype Position = Guard | Forward | Center

  /** `str(position or '').upper().strip()`; no row is treated as an empty position. */
  function NormalisedPosition(row: Option<string>): string {
    Strip(Upper(row.GetOr("")))
  }

  predicate CenterLike(p: string) {
    (Contains(p, "CENTER") || p == "C") && !Contains(p, "GUARD") && !Contains(p, "FORWARD")
  }

  predicate ForwardLike(p: string) {
    Contains(p, "FORWARD") || p == "F" || p == "F-C"
  }

  /**
   * The defence position: center, then forward; the explicit guard test and
   * the fallback both give guard, so every other string, the empty one and
   * a missing row included, is a guard.
   */
  function PositionOf(row: Option<string>): (r: Position)
    ensures r == Center <==> CenterLike(NormalisedPosition(row))
    ensures r == Forward <==> !CenterLike(NormalisedPosition(row)) && ForwardLike(NormalisedPosition(row))
    ensures row.None? ==> r == Guard
  {
    var p := NormalisedPosition(row);
    if CenterLike(p) then Center
    else if ForwardLike(p) then Forward
    else if Contains(p, "GUARD") || p == "G" || p == "G-F" then Guard
    else Guard
  }

  /** `position_guard`, `position_forward`, `position_center`: exactly one of them is 1. */
  function OneHot(p: Position): (r: (int, int, int))
    ensures r.0 + r.1 + r.2 == 1
    ensures 0 <= r.0 <= 1 && 0 <= r.1 <= 1 && 0 <= r.2 <= 1
    ensures r.2 == 1 <==> p == Center
    ensures r.1 == 1 <==> p == Forward
  {
    match p
      case Guard => (1, 0, 0)
      case Forward => (0, 1, 0)
      case Center => (0, 0, 1)
  }

  // ---- star teammates (lines 1089-1146) --------------------------------------

  /** A teammate averaging 20 points: the average, whether an injury keeps them out, and the games played without them. */
  datatype StarTeammate = StarTeammate(ppg: real, isOut: bool, gamesWithout: nat)

  datatype StarFlags = StarFlags(out: bool, ppg: real, gamesWithout: nat)

  const NoStarOut := StarFlags(false, 0.0, 0)

  /** The flags of the first star who is out, or the zero flags when none is. */
  function StarFlagsOf(stars: seq<StarTeammate>): StarFlags
    decreases |stars|
  {
    if stars == [] then NoStarOut
    else if stars[0].isOut then StarFlags(true, stars[0].ppg, stars[0].gamesWithout)
    else StarFlagsOf(stars[1..])
  }

  /** The loop over the star teammates that stops at the first one who is out. */
  method StarLoop(stars: seq<StarTeammate>) returns (flags: StarFlags)
    ensures flags == StarFlagsOf(stars)
    ensures flags.out <==> exists i :: 0 <= i < |stars| && stars[i].isOut
    ensures flags.out ==> exists i :: (0 <= i < |stars| && stars[i].isOut
      && (forall j :: 0 <= j < i ==> !stars[j].isOut)
      && flags.ppg == stars[i].ppg && flags.gamesWithout == stars[i].gamesWithout)
    ensures !flags.out ==> flags == NoStarOut
  {
    flags := NoStarOut;
    var i := 0;
    while i < |stars|
      invariant 0 <= i <= |stars|
      invariant forall j :: 0 <= j < i ==> !stars[j].isOut
      invariant StarFlagsOf(stars) == StarFlagsOf(stars[i..])
    {
      if stars[i].isOut {
        flags := StarFlags(true, stars[i].ppg, stars[i].gamesWithout);
        return;
      }
      assert stars[i..][1..] == stars[i + 1..];
      i := i + 1;
    }
  }

  // ---- the whole feature row ---------------------------------------------------

  /** The lookup results the features depend on. */
  datatype Lookups = Lookups(
    position: Option<string>, altitude: Option<real>, stars: seq<StarTeammate>,
    playoffGamesCareer: real, playoffBoost: real, minutesSlope: real)

  datatype Altitude = Altitude(feet: real, away: bool)

  datatype PlayerFeatures = PlayerFeatures(
    isPlayoff: bool, windows: seq<WindowFeatures>, starterShare: seq<real>, minutesTrend: real,
    playoffGamesCareer: real, playoffBoost: real,
    isHome: bool, daysRest: int, isBackToBack: bool, gamesPlayedSeason: nat,
    position: Position, star: StarFlags, altitude: Option<Altitude>)

  function StarterShare(games: seq<PriorGame>): real
    requires |games| > 0
  {
    Numeric.Mean(seq(|games|, i requires 0 <= i < |games| => if games[i].isStarter then 1.0 else 0.0))
  }

  /** `minutes_trend`: the fitted slope over the last ten games, or 0 when their minutes do not vary. */
  function MinutesTrend(recent: seq<PriorGame>, slope: real): real {
    var m := Values(Window(recent, 10), Minutes);
    if |m| >= 3 && exists i :: 0 <= i < |m| && m[i] != m[0] then slope else 0.0
  }

  /** The arena altitude, only when known and non-zero; away games above 3000 feet set the flag. */
  function AltitudeOf(altitude: Option<real>, isHome: bool): (r: Option<Altitude>)
    ensures r.Some? ==> (r.value.away <==> !isHome && r.value.feet > 3000.0)
  {
    if altitude.Some? && altitude.value != 0.0 then
      Some(Altitude(altitude.value, !isHome && altitude.value > 3000.0))
    else None
  }

  /** The three rolling windows, of lengths 5, 10 and 20. */
  function Windows(recent: seq<PriorGame>, decay: seq<real>): (r: seq<WindowFeatures>)
    requires DecayFactors(decay) && 0 < |recent| <= 20
    ensures |r| == 3
    ensures forall k :: 0 <= k < 3 ==>
      r[k].size == if WindowSizes[k] < |recent| then WindowSizes[k] else |recent|
  {
    seq(3, k requires 0 <= k < 3 => WindowOf(recent, WindowSizes[k], decay))
  }

  /** The loop of lines 746-750 over the window lengths. */
  method BuildWindows(recent: seq<PriorGame>, decay: seq<real>) returns (windows: seq<WindowFeatures>)
    requires DecayFactors(decay) && 0 < |recent| <= 20
    ensures windows == Windows(recent, decay)
  {
    windows := [];
    for k := 0 to 3
      invariant |windows| == k
      invariant forall j :: 0 <= j < k ==> windows[j] == WindowOf(recent, WindowSizes[j], decay)
    {
      windows := windows + [WindowOf(recent, WindowSizes[k], decay)];
    }
  }

  /** `build_features_for_player`: nothing with fewer than five prior games. */
  function FeaturesOf(recent: seq<PriorGame>, target: int, isHome: bool, gameType: string,
                      decay: seq<real>, db: Lookups): (r: Option<PlayerFeatures>)
    requires DecayFactors(decay) && |recent| <= 20
    ensures r.None? <==> |recent| < 5
    ensures r.Some? ==> 5 <= r.value.gamesPlayedSeason <= 20 && r.value.gamesPlayedSeason == |recent|
    ensures r.Some? ==> (r.value.isBackToBack <==> r.value.daysRest == 1)
  {
    if |recent| < 5 then None
    else
      var playoff := gameType == "playoff";
      var rest := target - recent[0].date;
      Some(PlayerFeatures(
        playoff,
        Windows(recent, decay),
        [StarterShare(Window(recent, 5)), StarterShare(Window(recent, 10))],
        MinutesTrend(recent, db.minutesSlope),
        if playoff then db.playoffGamesCareer else 0.0,
        if playoff then db.playoffBoost else 0.0,
        isHome, rest, rest == 1, |recent|,
        PositionOf(db.position), StarFlagsOf(db.stars), AltitudeOf(db.altitude, isHome)))
  }

  /**
   * The days of rest are the gap to the newest prior game, the smallest gap
   * to any of them; when all are before the target, at least one day.
   */
  lemma DaysRestIsSmallestGap(recent: seq<PriorGame>, target: int, isHome: bool, gameType: string,
                              decay: seq<real>, db: Lookups, i: nat)
    requires DecayFactors(decay) && 5 <= |recent| <= 20 && NewestFirst(recent)
    requires forall j :: 0 <= j < |recent| ==> recent[j].date < target
    requires i < |recent|
    ensures FeaturesOf(recent, target, isHome, gameType, decay, db).value.daysRest <= target - recent[i].date
    ensures FeaturesOf(recent, target, isHome, gameType, decay, db).value.daysRest >= 1
  {
  }

  /**
   * The confidence score's −8 for a player new to the team can never apply
   * to a feature row built here: `games_played_season` is the number of
   * prior games, which is also the season count the score receives, and it
   * is at least five.
   */
  lemma NewTeamPenaltyNeverApplies(recent: seq<PriorGame>, target: int, isHome: bool, gameType: string,
                                   decay: seq<real>, db: Lookups, row: Confidence.FeatureRow)
    requires DecayFactors(decay) && |recent| <= 20
    requires FeaturesOf(recent, target, isHome, gameType, decay, db).Some?
    requires "games_played_season" in row
    requires row["games_played_season"] ==
      Some(FeaturesOf(recent, target, isHome, gameType, decay, db).value.gamesPlayedSeason as real)
    ensures Confidence.NewTeamPenalty(row, |recent|) == 0
  {
  }

  /**
   * The feature row as the source fills it: the windows in a loop over the
   * three lengths, then the scalar features, then the star loop.
   */
  method BuildFeaturesForPlayer(recent: seq<PriorGame>, target: int, isHome: bool, gameType: string,
                                decay: seq<real>, db: Lookups) returns (r: Option<PlayerFeatures>)
    requires DecayFactors(decay) && |recent| <= 20
    ensures r == FeaturesOf(recent, target, isHome, gameType, decay, db)
    ensures r.Some? ==> |r.value.windows| == 3
    ensures r.Some? ==> forall k :: 0 <= k < 3 ==>
      r.value.windows[k].size == if WindowSizes[k] < |recent| then WindowSizes[k] else |recent|
  {
    if |recent| < 5 {
      return None;
    }
    var windows := BuildWindows(recent, decay);
    var playoff := gameType == "playoff";
    var rest := target - recent[0].date;
    var star := StarLoop(db.stars);
    var share := [StarterShare(Window(recent, 5)), StarterShare(Window(recent, 10))];
    var careerGames := if playoff then db.playoffGamesCareer else 0.0;
    var boost := if playoff then db.playoffBoost else 0.0;
    var features := PlayerFeatures(
      playoff, windows, share, MinutesTrend(recent, db.minutesSlope), careerGames, boost,
      isHome, rest, rest == 1, |recent|, PositionOf(db.position), star, AltitudeOf(db.altitude, isHome));
    r := Some(features);
  }

  // ---- model input and output (lines 493-578) --------------------------------

  /** The recent-game statistic that stands in for a missing player column, by its name. */
  function PlayerAverageStat(col: string): Option<Stat> {
    if "points_" <= col then Some(Points)
    else if "rebounds_total_" <= col then Some(Rebounds)
    else if "assists_" <= col then Some(Assists)
    else if "steals_" <= col then Some(Steals)
    else if "blocks_" <= col then Some(Blocks)
    else if "turnovers_" <= col then Some(Turnovers)
    else if "three_pointers_made_" <= col then Some(ThreesMade)
    else if Contains(col, "minutes_played") && !Contains(col, "per_36") then Some(Minutes)
    else if Contains(col, "usage_rate") then Some(Usage)
    else if Contains(col, "offensive_rating") && !Contains(col, "team") && !Contains(col, "opp") then Some(OffRating)
    else if Contains(col, "defensive_rating") && !Contains(col, "team") && !Contains(col, "opp") then Some(DefRating)
    else None
  }

  predicate TeamLike(col: string) {
    Contains(col, "team") || Contains(col, "opp") || Contains(col, "pace")
  }

  predicate ZeroFilled(col: string) {
    "is_" <= col || "position_" <= col || Contains(col, "trend")
  }

  /** The value put into a model column the features lack (lines 501-533); `None` is NaN. */
  function MissingColumnValue(col: string, league: map<string, real>, recent: seq<PriorGame>): Option<real>
    requires |recent| > 0
  {
    if TeamLike(col) then (if col in league then Some(league[col]) else None)
    else if ZeroFilled(col) then Some(0.0)
    else match PlayerAverageStat(col)
      case Some(s) => Some(WindowMean(recent, s))
      case None => if col in league then Some(league[col]) else None
  }

  /** The value that replaces a NaN cell (lines 537-562). */
  function NanFillValue(col: string, league: map<string, real>, recent: seq<PriorGame>): real
    requires |recent| > 0
  {
    if TeamLike(col) then (if col in league then league[col] else 0.0)
    else if ZeroFilled(col) then 0.0
    else match PlayerAverageStat(col)
      case Some(s) => WindowMean(recent, s)
      case None => if col in league then league[col] else 0.0
  }

  /**
   * What the model receives for one of its columns: `None` when the column
   * is missing and names an id, and dropped; otherwise the feature value,
   * the fallback for a missing column, or the NaN fill.
   */
  function ModelInput(col: string, features: map<string, Option<real>>, league: map<string, real>,
                      recent: seq<PriorGame>): (r: Option<real>)
    requires |recent| > 0
    ensures r.None? <==> col !in features && Tuning.HasIdMarker(col)
    ensures col in features && features[col].Some? ==> r == features[col]
  {
    var first := if col in features then features[col]
      else if Tuning.HasIdMarker(col) then None
      else MissingColumnValue(col, league, recent);
    if col !in features && Tuning.HasIdMarker(col) then None
    else if first.Some? then first
    else Some(NanFillValue(col, league, recent))
  }

  /**
   * The two passes agree: a missing column ends up with exactly the value a
   * NaN cell of that column would be filled with.
   */
  lemma MissingAgreesWithNanFill(col: string, features: map<string, Option<real>>,
                                 league: map<string, real>, recent: seq<PriorGame>)
    requires |recent| > 0 && col !in features && !Tuning.HasIdMarker(col)
    ensures ModelInput(col, features, league, recent) == Some(NanFillValue(col, league, recent))
  {
  }

  /** A model column that reaches the model: it is among the features or names no id. */
  predicate Survives(col: string, features: map<string, Option<real>>) {
    col in features || !Tuning.HasIdMarker(col)
  }

  /**
   * The model's columns that reach the model, in the model's order, a
   * repeated column as often as it is repeated (the comprehensions over
   * `model_feature_names`, lines 493 and 529).
   */
  function Surviving(modelColumns: seq<string>, features: map<string, Option<real>>): (r: seq<string>)
    ensures |r| <= |modelColumns|
    ensures forall c :: c in r <==> c in modelColumns && Survives(c, features)
  {
    if |modelColumns| == 0 then []
    else
      var front := modelColumns[..|modelColumns| - 1];
      var last := modelColumns[|modelColumns| - 1];
      assert modelColumns == front + [last];
      Surviving(front, features) + (if Survives(last, features) then [last] else [])
  }

  /** When every model column reaches the model, the row has exactly the model's columns in its order. */
  lemma {:induction false} AllSurvive(modelColumns: seq<string>, features: map<string, Option<real>>)
    requires forall i :: 0 <= i < |modelColumns| ==> Survives(modelColumns[i], features)
    ensures Surviving(modelColumns, features) == modelColumns
  {
    if |modelColumns| > 0 {
      var front := modelColumns[..|modelColumns| - 1];
      AllSurvive(front, features);
      assert modelColumns == front + [modelColumns[|modelColumns| - 1]];
    }
  }

  /** The surviving columns of a concatenation are those of each part in turn. */
  lemma {:induction false} SurvivingConcat(a: seq<string>, b: seq<string>, features: map<string, Option<real>>)
    ensures Surviving(a + b, features) == Surviving(a, features) + Surviving(b, features)
  {
    if |b| > 0 {
      var front := b[..|b| - 1];
      var last := b[|b| - 1];
      var tail := if Survives(last, features) then [last] else [];
      assert (a + b)[..|a + b| - 1] == a + front;
      assert (a + b)[|a + b| - 1] == last;
      assert Surviving(a + b, features) == Surviving(a + front, features) + tail;
      assert Surviving(b, features) == Surviving(front, features) + tail;
      SurvivingConcat(a, front, features);
    } else {
      assert a + b == a;
    }
  }

  /** The model's input row: the model's columns that survive, in the model's order, with their values. */
  method AlignFeatures(modelColumns: seq<string>, features: map<string, Option<real>>,
                       league: map<string, real>, recent: seq<PriorGame>) returns (cols: seq<string>, values: seq<real>)
    requires |recent| > 0
    ensures cols == Surviving(modelColumns, features)
    ensures |cols| == |values| <= |modelColumns|
    ensures forall c :: c in cols <==> c in modelColumns && Survives(c, features)
    ensures forall i :: 0 <= i < |cols| ==> ModelInput(cols[i], features, league, recent) == Some(values[i])
  {
    cols, values := [], [];
    for k := 0 to |modelColumns|
      invariant cols == Surviving(modelColumns[..k], features)
      invariant |cols| == |values|
      invariant forall i :: 0 <= i < |cols| ==> ModelInput(cols[i], features, league, recent) == Some(values[i])
    {
      assert modelColumns[..k + 1][..k] == modelColumns[..k];
      var v := ModelInput(modelColumns[k], features, league, recent);
      if v.Some? {
        cols, values := cols + [modelColumns[k]], values + [v.value];
      }
    }
    assert modelColumns[..|modelColumns|] == modelColumns;
  }

  /** `float(round(max(0.0, pred), 1))`, or 0.0 when predicting raised. */
  function StoredPrediction(raw: Option<real>): (r: real)
    ensures r >= 0.0
    ensures raw.None? || raw.value <= 0.0 ==> r == 0.0
    ensures raw.Some? && raw.value > 0.0 ==> -0.05 <= raw.value - r <= 0.05
  {
    if raw.None? then 0.0
    else
      var clipped := if raw.value > 0.0 then raw.value else 0.0;
      Numeric.RoundNonNegative(clipped, 1);
      assert Text.Pow10(1) == 10;
      Numeric.RoundTo(clipped, 1)
  }
}
