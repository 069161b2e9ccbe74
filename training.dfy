/**
 * Training the per-stat XGBoost models (src/models/train_xgboost.py): the
 * feature-column filter, the imputation of missing feature values, the
 * choice between season folds and a time-series split, the objective, the
 * selection of the best fold model and the gate on tuned parameters.
 *
 * Fitting and predicting are left to the library; a fold is reduced to the
 * mean absolute error it scores.
 */
module Training {
  import opened Wrappers
  import opened Text
  import Tuning
  import TuningPolicy

  // ---- feature columns (lines 44-60) -------------------------------------

  const TrainingAllowList: seq<string> := [
    "_l5", "_l10", "_l20", "_weighted", "is_", "days_rest", "games_played",
    "offensive_rating", "defensive_rating", "net_rating", "pace", "opp_", "altitude", "playoff",
    "star_teammate", "games_without_star", "usage_rate", "minutes_played", "minutes_trend",
    "per_36", "_pct", "_ratio", "pts_per", "ast_to", "reb_rate", "position_",
    "games_in_last", "is_heavy", "is_well", "consecutive_games", "season_progress",
    "is_early", "is_mid", "is_late", "games_remaining", "tz_difference", "west_to_east",
    "east_to_west", "days_since_asb", "post_asb"]

  /** A column is a feature iff it matches the allow-list, carries no id marker and is no raw value. */
  predicate IsTrainingFeature(col: string) {
    Tuning.MatchesAny(col, TrainingAllowList) && !Tuning.HasIdMarker(col) && col !in Tuning.RawLeakage
  }

  /** The training feature list: the columns that pass all three filters. */
  function TrainingFeatures(columns: seq<string>): (r: seq<string>)
    ensures forall c :: c in r <==> c in columns && IsTrainingFeature(c)
  {
    Tuning.FilterColumns(columns, IsTrainingFeature)
  }

  /** `minutes_played` matches the allow-list and is still never a feature. */
  lemma MinutesPlayedNeverFeature()
    ensures Tuning.MatchesAny("minutes_played", TrainingAllowList)
    ensures !IsTrainingFeature("minutes_played")
  {
    ContainsSelf("minutes_played");
    assert TrainingAllowList[17] == "minutes_played";
    assert Tuning.RawLeakage[11] == "minutes_played";
  }

  /** `offensive_rating` matches the allow-list and is still never a feature. */
  lemma OffensiveRatingNeverFeature()
    ensures Tuning.MatchesAny("offensive_rating", TrainingAllowList)
    ensures !IsTrainingFeature("offensive_rating")
  {
    ContainsSelf("offensive_rating");
    assert TrainingAllowList[7] == "offensive_rating";
    assert Tuning.RawLeakage[0] == "offensive_rating";
  }

  /** Every column tuned on is also trained on: the training allow-list extends the tuning one. */
  lemma TuningFeatureIsTrainingFeature(col: string)
    requires Tuning.IsTuningFeature(col)
    ensures IsTrainingFeature(col)
  {
    var e :| e in Tuning.TuningAllowList && Contains(col, e);
    assert e in TrainingAllowList;
  }

  /** A column lacking the letters `m`, `p` and `g` holds none of the three id markers. */
  lemma NoIdMarkerWithout(col: string)
    requires 'm' !in col && 'p' !in col && 'g' !in col
    ensures !Tuning.HasIdMarker(col)
  {
    CharAbsent(col, "team_id", 'm');
    CharAbsent(col, "player_id", 'p');
    CharAbsent(col, "game_id", 'g');
  }

  lemma TzDifferenceNotRaw()
    ensures "tz_difference" !in Tuning.RawLeakage
  {
    forall k | 0 <= k < |Tuning.RawLeakage|
      ensures Tuning.RawLeakage[k] != "tz_difference"
    {
      assert Tuning.RawLeakage[k][0] != 't' || Tuning.RawLeakage[k][1] != 'z';
    }
  }

  /** `tz_difference` is a training feature but, lacking from the tuning allow-list, not a tuning one. */
  lemma TzDifferenceTrainedNotTuned()
    ensures IsTrainingFeature("tz_difference") && !Tuning.IsTuningFeature("tz_difference")
  {
    ContainsSelf("tz_difference");
    assert TrainingAllowList[35] == "tz_difference";
    NoIdMarkerWithout("tz_difference");
    TzDifferenceNotRaw();
    Tuning.TzDifferenceNotTuned();
  }

  // ---- imputation (lines 63-90) --------------------------------------------

  predicate TeamLike(col: string) {
    Contains(col, "team") || Contains(col, "opp") || Contains(col, "pace")
  }

  predicate ZeroNamed(col: string) {
    "is_" <= col || "position_" <= col || Contains(col, "trend")
    || col in ["west_to_east", "east_to_west", "post_asb_bounce"]
  }

  datatype LeagueValue = ColumnMean | Zero

  /**
   * The value recorded in `league_means` (lines 64-73), tested in order: a
   * team, opponent or pace column takes its mean; then a flag, position,
   * trend or travel indicator takes 0; anything else its mean.
   */
  function LeagueRule(col: string): (r: LeagueValue)
    ensures r == Zero <==> !TeamLike(col) && ZeroNamed(col)
  {
    if Contains(col, "team") || Contains(col, "opp") || Contains(col, "pace") then ColumnMean
    else if "is_" <= col || "position_" <= col then Zero
    else if Contains(col, "trend") || col in ["west_to_east", "east_to_west", "post_asb_bounce"] then Zero
    else ColumnMean
  }

  /**
   * Tuning imputes 0 for a subset of the columns training imputes 0 for:
   * the travel indicators are the only columns training zeroes and tuning
   * averages (tune_hyperparameters.py lines 214-222 against lines 64-73 here).
   */
  lemma TuningZeroesFewer(col: string)
    ensures Tuning.TuningZeroImputed(col) ==> LeagueRule(col) == Zero
    ensures LeagueRule(col) == Zero && !Tuning.TuningZeroImputed(col) ==>
      col in ["west_to_east", "east_to_west", "post_asb_bounce"]
  {
  }

  datatype FillRule = FillLeague | FillZero | FillPlayerPrior

  /** The branch of lines 79-88 that fills a column's missing cells. */
  function FillRuleOf(col: string): FillRule {
    if Contains(col, "team") || Contains(col, "opp") || Contains(col, "pace") then FillLeague
    else if "is_" <= col || "position_" <= col || Contains(col, "trend")
      || col in ["west_to_east", "east_to_west", "post_asb_bounce"] then FillZero
    else FillPlayerPrior
  }

  /**
   * The fill loop agrees with the league-mean loop: the columns filled from
   * `league_means` with 0 are exactly those whose recorded value is 0.
   */
  lemma FillAgreesWithLeagueRule(col: string)
    ensures FillRuleOf(col) == FillZero <==> LeagueRule(col) == Zero
    ensures FillRuleOf(col) != FillZero ==> LeagueRule(col) == ColumnMean
  {
  }

  /** A column of the feature table: `None` is a missing (NaN) cell. */
  type Column = seq<Option<real>>

  function PresentSum(values: Column, players: seq<int>, p: int, n: nat): real
    requires n <= |values| && n <= |players|
  {
    if n == 0 then 0.0 else
      var here := if players[n - 1] == p && values[n - 1].Some? then values[n - 1].value else 0.0;
      PresentSum(values, players, p, n - 1) + here
  }

  function PresentCount(values: Column, players: seq<int>, p: int, n: nat): nat
    requires n <= |values| && n <= |players|
  {
    if n == 0 then 0 else
      var here := if players[n - 1] == p && values[n - 1].Some? then 1 else 0;
      PresentCount(values, players, p, n - 1) + here
  }

  function AllSum(values: Column, n: nat): real
    requires n <= |values|
  {
    if n == 0 then 0.0 else AllSum(values, n - 1) + (if values[n - 1].Some? then values[n - 1].value else 0.0)
  }

  function AllCount(values: Column, n: nat): nat
    requires n <= |values|
  {
    if n == 0 then 0 else AllCount(values, n - 1) + (if values[n - 1].Some? then 1 else 0)
  }

  /** `df[col].mean()`: the mean of the present cells, NaN when there are none. */
  function ColumnMeanOf(values: Column): Option<real> {
    if AllCount(values, |values|) == 0 then None
    else Some(AllSum(values, |values|) / AllCount(values, |values|) as real)
  }

  /**
   * `x.expanding().mean().shift(1)` grouped by player, at row `i`: the mean of
   * the present cells of the same player's earlier rows, NaN when there are none.
   */
  function PriorMean(values: Column, players: seq<int>, i: nat): Option<real>
    requires i < |values| && i < |players|
  {
    var c := PresentCount(values, players, players[i], i);
    if c == 0 then None else Some(PresentSum(values, players, players[i], i) / c as real)
  }

  /** The value a cell holds after the fills of lines 79-88 and the final `X.fillna(0)`. */
  function ImputedCell(values: Column, players: seq<int>, rule: FillRule, i: nat): real
    requires i < |values| && i < |players|
  {
    if values[i].Some? then values[i].value
    else match rule
      case FillLeague => ColumnMeanOf(values).GetOr(0.0)
      case FillZero => 0.0
      case FillPlayerPrior =>
        match PriorMean(values, players, i)
        case Some(m) => m
        case None => ColumnMeanOf(values).GetOr(0.0)
  }

  /**
   * Imputes one feature column: every present cell is kept, and every missing
   * cell receives the value its column's rule gives, so no cell is left missing.
   */
  method ImputeColumn(values: Column, players: seq<int>, rule: FillRule) returns (out: seq<real>)
    requires |values| == |players|
    ensures |out| == |values|
    ensures forall i :: 0 <= i < |values| && values[i].Some? ==> out[i] == values[i].value
    ensures forall i :: 0 <= i < |values| ==> out[i] == ImputedCell(values, players, rule, i)
  {
    var total, count := 0.0, 0;
    var k := 0;
    while k < |values|
      invariant 0 <= k <= |values|
      invariant total == AllSum(values, k) && count == AllCount(values, k)
    {
      if values[k].Some? {
        total, count := total + values[k].value, count + 1;
      }
      k := k + 1;
    }
    var league: Option<real> := if count == 0 then None else Some(total / count as real);
    assert league == ColumnMeanOf(values);

    var sums: map<int, real> := map[];
    var counts: map<int, nat> := map[];
    out := [];
    var i := 0;
    while i < |values|
      invariant 0 <= i <= |values|
      invariant |out| == i
      invariant forall j :: 0 <= j < i ==> out[j] == ImputedCell(values, players, rule, j)
      invariant forall p :: p in counts <==> p in sums
      invariant forall p :: p in counts ==>
        counts[p] == PresentCount(values, players, p, i) && sums[p] == PresentSum(values, players, p, i)
      invariant forall p :: p !in counts ==> PresentCount(values, players, p, i) == 0
      invariant forall p :: p !in counts ==> PresentSum(values, players, p, i) == 0.0
    {
      var p := players[i];
      var c := if p in counts then counts[p] else 0;
      var s := if p in sums then sums[p] else 0.0;
      var cell: real;
      if values[i].Some? {
        cell := values[i].value;
      } else if rule == FillLeague {
        cell := league.GetOr(0.0);
      } else if rule == FillZero {
        cell := 0.0;
      } else if c > 0 {
        cell := s / c as real;
      } else {
        cell := league.GetOr(0.0);
      }
      out := out + [cell];
      if values[i].Some? {
        counts := counts[p := c + 1];
        sums := sums[p := s + values[i].value];
      }
      i := i + 1;
    }
  }

  // ---- cross-validation scheme (lines 121-137) -----------------------------

  datatype SplitPlan = SeasonFolds(folds: seq<Tuning.Fold>) | TimeSeriesSplit(nSplits: nat)

  /**
   * More than two seasons: the season folds, built exactly as in tuning;
   * otherwise the library's time-series split with three splits.
   */
  method BuildSplitPlan(seasons: seq<int>) returns (plan: SplitPlan)
    ensures plan.SeasonFolds? <==> |Tuning.SortedSeasons(seasons)| > 2
    ensures plan.SeasonFolds? ==> plan.folds == Tuning.CvSplits(seasons)
    ensures plan.SeasonFolds? ==> |plan.folds| == |Tuning.SortedSeasons(seasons)| - 2
    ensures plan.TimeSeriesSplit? ==> plan.nSplits == 3
  {
    var nSeasons := |Tuning.SortedSeasons(seasons)|;
    if nSeasons > 2 {
      var folds := Tuning.CreateCvSplits(seasons);
      Tuning.SeasonFoldContents(seasons, 0);
      plan := SeasonFolds(folds);
    } else {
      plan := TimeSeriesSplit(3);
    }
  }

  // ---- best fold (lines 139-140, 190-192) ------------------------------------

  /**
   * The fold whose model is kept: starting from an infinite best score, a
   * fold replaces the best only when its error is strictly smaller, so the
   * first fold with the smallest error wins. No folds keep no model.
   */
  method BestFold(maes: seq<real>) returns (best: Option<nat>)
    ensures best.None? <==> |maes| == 0
    ensures best.Some? ==> best.value < |maes|
    ensures best.Some? ==> forall j :: 0 <= j < |maes| ==> maes[best.value] <= maes[j]
    ensures best.Some? ==> forall j :: 0 <= j < best.value ==> maes[j] > maes[best.value]
  {
    best := None;
    var bestScore: real := 0.0;
    var i := 0;
    while i < |maes|
      invariant 0 <= i <= |maes|
      invariant best.None? <==> i == 0
      invariant best.Some? ==> best.value < i && bestScore == maes[best.value]
      invariant best.Some? ==> forall j :: 0 <= j < i ==> bestScore <= maes[j]
      invariant best.Some? ==> forall j :: 0 <= j < best.value ==> maes[j] > bestScore
    {
      if best.None? || maes[i] < bestScore {
        bestScore := maes[i];
        best := Some(i);
      }
      i := i + 1;
    }
  }

  // ---- objective and tuned parameters -----------------------------------

  /** The XGBoost objective of the fold models and of the final model (lines 156, 204). */
  function Objective(target: string): (r: string)
    ensures r == "count:poisson" <==> Tuning.IsCountTarget(target)
    ensures r != "count:poisson" ==> r == "reg:squarederror"
  {
    if target in ["blocks", "steals"] then "count:poisson" else "reg:squarederror"
  }

  /** Training uses the objective that XGBoost was tuned with. */
  lemma ObjectiveMatchesTuning(target: string)
    ensures Tuning.LossFor("xgboost", target) == Some(Objective(target))
  {
  }

  type Params = map<string, real>

  /**
   * `load_tuned_params`: nothing when the policy says no; otherwise the
   * stored parameter file if there is one. `stored` is the file's content.
   */
  function LoadTunedParams(modelType: string, target: string, useSelective: bool, stored: Option<Params>): (r: Option<Params>)
    ensures !TuningPolicy.ShouldUseTunedParams(modelType, target, useSelective) ==> r == None
    ensures TuningPolicy.ShouldUseTunedParams(modelType, target, useSelective) ==> r == stored
  {
    if !TuningPolicy.ShouldUseTunedParams(modelType, target, useSelective) then None
    else stored
  }

  /** `if tuned_params:` (lines 145-164): tuned parameters are used only when loaded and non-empty. */
  function UsesTunedParams(useTuned: bool, target: string, useSelective: bool, stored: Option<Params>): bool {
    useTuned && LoadTunedParams("xgboost", target, useSelective, stored).Some?
      && |LoadTunedParams("xgboost", target, useSelective, stored).value| > 0
  }

  /** Under the selective policy XGBoost uses tuned parameters only for blocks and steals. */
  lemma TunedOnlyForCountTargets(target: string, stored: Option<Params>)
    requires UsesTunedParams(true, target, true, stored)
    ensures Tuning.IsCountTarget(target)
  {
  }
}
