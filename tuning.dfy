/**
 * Hyperparameter tuning (src/models/tune_hyperparameters.py): the
 * season-aware cross-validation splits, the loss chosen per model family and
 * target, the mean fold error an Optuna trial returns, and the feature-column
 * filter used while tuning.
 *
 * A season is represented by an integer that sorts like its label
 * ("2023-24" < "2024-25"); the DataFrame is its column of seasons, one per row.
 */
module Tuning {
  import opened Wrappers
  import opened Text

  // ---- sorted distinct seasons -------------------------------------------

  predicate Increasing(u: seq<int>) {
    forall i, j :: 0 <= i < j < |u| ==> u[i] < u[j]
  }

  function InsertSorted(u: seq<int>, x: int): (r: seq<int>)
    requires Increasing(u)
    ensures Increasing(r)
    ensures forall y :: y in r <==> y in u || y == x
  {
    if |u| == 0 then [x]
    else if x < u[0] then [x] + u
    else if x == u[0] then u
    else
      var tail := u[1..];
      assert forall k :: 0 <= k < |tail| ==> u[0] < tail[k] by {
        forall k | 0 <= k < |tail| ensures u[0] < tail[k] { assert tail[k] == u[k + 1]; }
      }
      var rest := InsertSorted(tail, x);
      assert forall k :: 0 <= k < |rest| ==> u[0] < rest[k] by {
        forall k | 0 <= k < |rest| ensures u[0] < rest[k] { assert rest[k] in rest; }
      }
      assert forall y :: y in u <==> y == u[0] || y in tail by {
        assert u == [u[0]] + tail;
      }
      [u[0]] + rest
  }

  /** `sorted(df['season'].unique())`. */
  function SortedSeasons(seasons: seq<int>): (u: seq<int>)
    ensures Increasing(u)
    ensures forall y :: y in u <==> y in seasons
  {
    if |seasons| == 0 then []
    else InsertSorted(SortedSeasons(seasons[..|seasons| - 1]), seasons[|seasons| - 1])
  }

  // ---- row index selection -------------------------------------------------

  /** `np.where(mask)[0]`: the ascending row positions whose season satisfies `p`. */
  function Where(seasons: seq<int>, p: int -> bool): (r: seq<nat>)
    ensures forall i, j :: 0 <= i < j < |r| ==> r[i] < r[j]
    ensures forall i :: i in r <==> 0 <= i < |seasons| && p(seasons[i])
  {
    if |seasons| == 0 then []
    else
      var n := |seasons| - 1;
      var init := seasons[..n];
      var front := Where(init, p);
      assert forall i :: 0 <= i < n ==> init[i] == seasons[i];
      assert forall k :: 0 <= k < |front| ==> front[k] < n by {
        forall k | 0 <= k < |front| ensures front[k] < n { assert front[k] in front; }
      }
      front + (if p(seasons[n]) then [n] else [])
  }

  /** `np.arange(lo, hi)`. */
  function Range(lo: nat, hi: nat): (r: seq<nat>)
    ensures |r| == if lo <= hi then hi - lo else 0
    ensures forall i :: 0 <= i < |r| ==> r[i] == lo + i
    decreases hi - lo
  {
    if lo >= hi then [] else [lo] + Range(lo + 1, hi)
  }

  datatype Fold = Fold(train: seq<nat>, validation: seq<nat>)

  /** The candidate fold validating on the `i`-th sorted season (lines 28-34). */
  function FoldAt(seasons: seq<int>, u: seq<int>, i: nat): Fold
    requires i < |u|
  {
    Fold(Where(seasons, s => s in u[..i]), Where(seasons, s => s == u[i]))
  }

  function Admitted(f: Fold): bool {
    |f.train| > 0 && |f.validation| > 0
  }

  /** The folds the loop of lines 27-37 has appended once it has handled every position below `i`. */
  function SeasonFolds(seasons: seq<int>, u: seq<int>, i: nat): seq<Fold>
    requires 2 <= i <= |u|
    decreases i
  {
    if i == 2 then []
    else
      var f := FoldAt(seasons, u, i - 1);
      SeasonFolds(seasons, u, i - 1) + (if Admitted(f) then [f] else [])
  }

  /** The design of `create_cv_splits`; with fewer than three seasons, one 80/20 split by row order. */
  function CvSplits(seasons: seq<int>): seq<Fold> {
    var u := SortedSeasons(seasons);
    var n := |seasons|;
    if |u| < 3 then [Fold(Range(0, n * 4 / 5), Range(n * 4 / 5, n))]
    else SeasonFolds(seasons, u, |u|)
  }

  /**
   * `create_cv_splits` as written: for each sorted season from the third on,
   * train on the rows of the earlier seasons and validate on its rows.
   * `int(len(df) * 0.8)` equals `len(df) * 4 / 5` for every row count below
   * 10^15, far beyond any table this runs on.
   */
  method CreateCvSplits(seasons: seq<int>) returns (folds: seq<Fold>)
    ensures folds == CvSplits(seasons)
  {
    var u := SortedSeasons(seasons);
    if |u| < 3 {
      var splitPoint := |seasons| * 4 / 5;
      return [Fold(Range(0, splitPoint), Range(splitPoint, |seasons|))];
    }
    folds := [];
    var i := 2;
    while i < |u|
      invariant 2 <= i <= |u|
      invariant folds == SeasonFolds(seasons, u, i)
    {
      var trainIdx := Where(seasons, s => s in u[..i]);
      var valIdx := Where(seasons, s => s == u[i]);
      if |trainIdx| > 0 && |valIdx| > 0 {
        folds := folds + [Fold(trainIdx, valIdx)];
      }
      i := i + 1;
    }
  }

  // ---- properties of the splits -----------------------------------------

  /** Every candidate fold is admitted: its season occurs, and so does the first season. */
  lemma FoldAtAdmitted(seasons: seq<int>, u: seq<int>, i: nat)
    requires u == SortedSeasons(seasons) && 1 <= i < |u|
    ensures Admitted(FoldAt(seasons, u, i))
  {
    assert u[0] in seasons;
    var a :| 0 <= a < |seasons| && seasons[a] == u[0];
    assert seasons[a] in u[..i];
    assert a in FoldAt(seasons, u, i).train;
    assert u[i] in seasons;
    var b :| 0 <= b < |seasons| && seasons[b] == u[i];
    assert b in FoldAt(seasons, u, i).validation;
  }

  lemma {:induction false} SeasonFoldsAre(seasons: seq<int>, u: seq<int>, i: nat)
    requires u == SortedSeasons(seasons) && 2 <= i <= |u|
    ensures |SeasonFolds(seasons, u, i)| == i - 2
    ensures forall j :: 0 <= j < i - 2 ==> SeasonFolds(seasons, u, i)[j] == FoldAt(seasons, u, j + 2)
    decreases i
  {
    if i > 2 {
      SeasonFoldsAre(seasons, u, i - 1);
      FoldAtAdmitted(seasons, u, i - 1);
      var prev, f := SeasonFolds(seasons, u, i - 1), FoldAt(seasons, u, i - 1);
      assert SeasonFolds(seasons, u, i) == prev + [f];
      forall j | 0 <= j < i - 2 ensures (prev + [f])[j] == FoldAt(seasons, u, j + 2) {
        if j < i - 3 {
          assert (prev + [f])[j] == prev[j];
        }
      }
    }
  }

  /** With fewer than three seasons there is one split, the first `⌊0.8·n⌋` rows training. */
  lemma FewSeasonsSingleSplit(seasons: seq<int>)
    requires |SortedSeasons(seasons)| < 3
    ensures |CvSplits(seasons)| == 1
    ensures CvSplits(seasons)[0].train == Range(0, |seasons| * 4 / 5)
    ensures CvSplits(seasons)[0].validation == Range(|seasons| * 4 / 5, |seasons|)
  {
  }

  /**
   * With k >= 3 distinct seasons there are exactly k - 2 folds, the j-th
   * validating on the (j+2)-th sorted season; its training rows are exactly
   * the rows of earlier seasons and its validation rows exactly that
   * season's rows.
   */
  lemma SeasonFoldContents(seasons: seq<int>, j: nat)
    requires |SortedSeasons(seasons)| >= 3
    requires j < |SortedSeasons(seasons)| - 2
    ensures |CvSplits(seasons)| == |SortedSeasons(seasons)| - 2
    ensures forall r :: r in CvSplits(seasons)[j].train <==>
      0 <= r < |seasons| && seasons[r] < SortedSeasons(seasons)[j + 2]
    ensures forall r :: r in CvSplits(seasons)[j].validation <==>
      0 <= r < |seasons| && seasons[r] == SortedSeasons(seasons)[j + 2]
  {
    var u := SortedSeasons(seasons);
    SeasonFoldsAre(seasons, u, |u|);
    var f := FoldAt(seasons, u, j + 2);
    assert CvSplits(seasons)[j] == f;
    forall r | 0 <= r < |seasons|
      ensures seasons[r] in u[..j + 2] <==> seasons[r] < u[j + 2]
    {
      InPrefixIffBelow(u, j + 2, seasons[r]);
    }
  }

  /** In an increasing sequence, a member lies in the first `m` entries iff it is below entry `m`. */
  lemma InPrefixIffBelow(u: seq<int>, m: nat, x: int)
    requires Increasing(u) && m < |u| && x in u
    ensures x in u[..m] <==> x < u[m]
  {
    var q :| 0 <= q < |u| && u[q] == x;
    if q < m {
      assert u[..m][q] == x;
    } else {
      assert x !in u[..m] by {
        forall k | 0 <= k < m ensures u[..m][k] != x { assert u[k] < u[q]; }
      }
    }
  }

  /** Training and validation rows of a fold never overlap. */
  lemma FoldDisjoint(seasons: seq<int>, j: nat)
    requires |SortedSeasons(seasons)| >= 3
    requires j < |SortedSeasons(seasons)| - 2
    ensures |CvSplits(seasons)| == |SortedSeasons(seasons)| - 2
    ensures forall r :: r in CvSplits(seasons)[j].train ==> r !in CvSplits(seasons)[j].validation
  {
    SeasonFoldContents(seasons, j);
  }

  /** Training sets grow from one fold to the next. */
  lemma TrainingGrows(seasons: seq<int>, j: nat)
    requires |SortedSeasons(seasons)| >= 3
    requires j + 1 < |SortedSeasons(seasons)| - 2
    ensures |CvSplits(seasons)| == |SortedSeasons(seasons)| - 2
    ensures forall r :: r in CvSplits(seasons)[j].train ==> r in CvSplits(seasons)[j + 1].train
  {
    var u := SortedSeasons(seasons);
    SeasonFoldsAre(seasons, u, |u|);
    var a, b := FoldAt(seasons, u, j + 2), FoldAt(seasons, u, j + 3);
    assert CvSplits(seasons)[j] == a && CvSplits(seasons)[j + 1] == b;
    forall r | r in a.train ensures r in b.train {
      assert seasons[r] in u[..j + 2];
      var q :| 0 <= q < j + 2 && u[..j + 2][q] == seasons[r];
      assert u[..j + 3][q] == seasons[r];
    }
  }

  /** `create_cv_splits` never returns an empty list, so the mean fold error is defined. */
  lemma SplitsNonEmpty(seasons: seq<int>)
    ensures |CvSplits(seasons)| >= 1
  {
    var u := SortedSeasons(seasons);
    if |u| >= 3 {
      SeasonFoldsAre(seasons, u, |u|);
    }
  }

  // ---- objective selection ------------------------------------------------

  predicate IsCountTarget(target: string) {
    target == "blocks" || target == "steals"
  }

  /**
   * The loss parameter `create_objective` sets for a model family (lines
   * 58-61, 80-83, 99-102); `random_forest` sets none.
   */
  function LossFor(modelType: string, target: string): (r: Option<string>)
    ensures modelType == "random_forest" ==> r == None
    ensures modelType == "xgboost" ==> r == Some(if IsCountTarget(target) then "count:poisson" else "reg:squarederror")
    ensures modelType == "lightgbm" ==> r == Some(if IsCountTarget(target) then "poisson" else "regression")
    ensures modelType == "catboost" ==> r == Some(if IsCountTarget(target) then "Poisson" else "RMSE")
  {
    if modelType == "xgboost" then Some(if target in ["blocks", "steals"] then "count:poisson" else "reg:squarederror")
    else if modelType == "lightgbm" then Some(if target in ["blocks", "steals"] then "poisson" else "regression")
    else if modelType == "catboost" then Some(if target in ["blocks", "steals"] then "Poisson" else "RMSE")
    else None
  }

  predicate IsPoissonLoss(loss: string) {
    loss == "count:poisson" || loss == "poisson" || loss == "Poisson"
  }

  /** For the three boosting families the loss is a Poisson loss exactly for blocks and steals. */
  lemma PoissonIffCountTarget(modelType: string, target: string)
    requires modelType == "xgboost" || modelType == "lightgbm" || modelType == "catboost"
    ensures LossFor(modelType, target).Some?
    ensures IsPoissonLoss(LossFor(modelType, target).value) <==> IsCountTarget(target)
  {
  }

  // ---- the value of one trial ---------------------------------------------

  function Sum(xs: seq<real>): real {
    if |xs| == 0 then 0.0 else Sum(xs[..|xs| - 1]) + xs[|xs| - 1]
  }

  /** `np.mean(fold_maes)` over a non-empty list of fold errors (line 131). */
  function MeanMae(maes: seq<real>): real
    requires |maes| > 0
  {
    Sum(maes) / |maes| as real
  }

  lemma {:induction false} SumBounds(xs: seq<real>, lo: real, hi: real)
    requires forall i :: 0 <= i < |xs| ==> lo <= xs[i] <= hi
    ensures |xs| as real * lo <= Sum(xs) <= |xs| as real * hi
    decreases |xs|
  {
    if |xs| > 0 {
      var n := |xs| as real;
      SumBounds(xs[..|xs| - 1], lo, hi);
      assert Sum(xs) == Sum(xs[..|xs| - 1]) + xs[|xs| - 1];
      assert lo <= xs[|xs| - 1] <= hi;
      assert n * lo == (n - 1.0) * lo + lo;
      assert n * hi == (n - 1.0) * hi + hi;
    }
  }

  /** The trial value lies between the smallest and the largest fold error. */
  lemma MeanMaeBetween(maes: seq<real>, lo: real, hi: real)
    requires |maes| > 0
    requires forall i :: 0 <= i < |maes| ==> lo <= maes[i] <= hi
    ensures lo <= MeanMae(maes) <= hi
  {
    SumBounds(maes, lo, hi);
    var n := |maes| as real;
    assert n * lo <= Sum(maes) <= n * hi;
    assert Sum(maes) / n >= lo by {
      assert Sum(maes) >= lo * n;
    }
    assert Sum(maes) / n <= hi by {
      assert Sum(maes) <= hi * n;
    }
  }

  // ---- the feature filter used while tuning ---------------------------------

  const TuningAllowList: seq<string> := [
    "_l5", "_l10", "_l20", "_weighted", "is_", "days_rest", "games_played",
    "offensive_rating", "defensive_rating", "net_rating", "pace", "opp_",
    "altitude", "playoff", "star_teammate", "games_without_star",
    "usage_rate", "minutes_played", "minutes_trend", "per_36",
    "_pct", "_ratio", "pts_per", "ast_to", "reb_rate", "position_"]

  /** The names of the current game's own box-score values, never used as features. */
  const RawLeakage: seq<string> := [
    "offensive_rating", "defensive_rating", "usage_rate", "true_shooting_pct",
    "points", "rebounds_total", "assists", "steals", "blocks", "turnovers",
    "three_pointers_made", "minutes_played", "is_starter", "field_goals_made",
    "field_goals_attempted", "three_pointers_attempted", "free_throws_made",
    "free_throws_attempted"]

  predicate MatchesAny(col: string, list: seq<string>) {
    exists e :: e in list && Contains(col, e)
  }

  predicate HasIdMarker(col: string) {
    Contains(col, "team_id") || Contains(col, "player_id") || Contains(col, "game_id")
  }

  /** A column survives the three comprehensions of lines 196-211. */
  predicate IsTuningFeature(col: string) {
    MatchesAny(col, TuningAllowList) && !HasIdMarker(col) && col !in RawLeakage
  }

  function FilterColumns(columns: seq<string>, keep: string -> bool): (r: seq<string>)
    ensures |r| <= |columns|
    ensures forall c :: c in r <==> c in columns && keep(c)
  {
    if |columns| == 0 then []
    else
      var last := columns[|columns| - 1];
      FilterColumns(columns[..|columns| - 1], keep) + (if keep(last) then [last] else [])
  }

  /** The tuning feature list: the columns that pass the filter. */
  function TuningFeatures(columns: seq<string>): (r: seq<string>)
    ensures forall c :: c in r <==> c in columns && IsTuningFeature(c)
  {
    FilterColumns(columns, IsTuningFeature)
  }

  /** While tuning, `tz_difference` matches no allow-list entry, so it is never tuned on. */
  lemma TzDifferenceNotTuned()
    ensures !IsTuningFeature("tz_difference")
  {
    NoneContained("tz_difference", TuningAllowList, "lllwsagoaapoapsgammppapabp");
  }

  /** Zero imputation while tuning (lines 217-224): `is_`/`position_` prefixes or a trend. */
  predicate TuningZeroImputed(col: string) {
    !(Contains(col, "team") || Contains(col, "opp") || Contains(col, "pace"))
    && ("is_" <= col || "position_" <= col || Contains(col, "trend"))
  }
}
