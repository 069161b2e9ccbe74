/**
 * `EnsemblePredictor` (src/predictions/predict_games.py lines 22-83): the
 * simple, MAE-weighted and custom-weighted averages of several models'
 * predictions.
 *
 * A fitted model is opaque; what the averages use is each model's
 * prediction for the feature row, so the predictor is the map from model
 * name to that prediction together with the validation MAEs. NumPy applies
 * the same arithmetic to every row, so one row stands for all of them.
 */
module EnsemblePredictor {
  import opened Wrappers
  import Numeric
  import opened WeightedSums

  datatype Predictor = Predictor(preds: map<string, real>, maes: map<string, real>)

  /** What a call returns, or which exception it raises. */
  datatype Outcome =
    | NoValidModels                      // `ValueError`
    | DivisionByZero                     // `ZeroDivisionError`
    | Ensembled(value: real, weights: map<string, real>)

  /** `selected_models`, or the models' own key order when it is `None`; an empty list stays empty. */
  function Selection(selected: Option<seq<string>>, keyOrder: seq<string>): seq<string> {
    match selected
    case None => keyOrder
    case Some(s) => s
  }

  /** The predictions of the selected names that are models, repeats included. */
  function Available(p: Predictor, sel: seq<string>): (r: seq<real>)
    ensures |r| <= |sel|
    ensures |r| == 0 <==> forall k :: 0 <= k < |sel| ==> sel[k] !in p.preds
  {
    if |sel| == 0 then []
    else
      var m := sel[|sel| - 1];
      Available(p, sel[..|sel| - 1]) + (if m in p.preds then [p.preds[m]] else [])
  }

  // ---- predict_simple_average (lines 27-42) -----------------------------------

  function SimpleAverage(p: Predictor, sel: seq<string>): (o: Outcome)
    ensures o.NoValidModels? <==> |Available(p, sel)| == 0
    ensures o.Ensembled? ==> o.weights.Keys == set m | m in sel
  {
    var a := Available(p, sel);
    if |a| == 0 then NoValidModels
    else Ensembled(Numeric.Mean(a), map m | m in sel :: 1.0 / |a| as real)
  }

  method PredictSimpleAverage(p: Predictor, keyOrder: seq<string>, selected: Option<seq<string>>) returns (o: Outcome)
    ensures o == SimpleAverage(p, Selection(selected, keyOrder))
  {
    var sel := Selection(selected, keyOrder);
    var predictions: seq<real> := [];
    for i := 0 to |sel|
      invariant predictions == Available(p, sel[..i])
    {
      assert sel[..i + 1][..i] == sel[..i];
      if sel[i] in p.preds {
        predictions := predictions + [p.preds[sel[i]]];
      }
    }
    assert sel[..|sel|] == sel;
    if |predictions| == 0 {
      return NoValidModels;
    }
    var weights := map m | m in sel :: 1.0 / |predictions| as real;
    o := Ensembled(Numeric.Mean(predictions), weights);
  }

  /** The simple average lies within the range of the models' predictions. */
  lemma SimpleAverageBetween(p: Predictor, sel: seq<string>, lo: real, hi: real)
    requires SimpleAverage(p, sel).Ensembled?
    requires forall m :: m in sel && m in p.preds ==> lo <= p.preds[m] <= hi
    ensures lo <= SimpleAverage(p, sel).value <= hi
  {
    AvailableBetween(p, sel, lo, hi);
    Numeric.MeanBetween(Available(p, sel), lo, hi);
  }

  lemma {:induction false} AvailableBetween(p: Predictor, sel: seq<string>, lo: real, hi: real)
    requires forall m :: m in sel && m in p.preds ==> lo <= p.preds[m] <= hi
    ensures forall i :: 0 <= i < |Available(p, sel)| ==> lo <= Available(p, sel)[i] <= hi
    decreases |sel|
  {
    if |sel| > 0 {
      var front := sel[..|sel| - 1];
      assert forall m :: m in front ==> m in sel;
      AvailableBetween(p, front, lo, hi);
    }
  }

  // ---- predict_weighted_average (lines 44-68) ---------------------------------

  /** A model's raw weight: `1 / mae` with a validation MAE, else 1. */
  function Raw(p: Predictor, m: string): real
    requires m in p.preds
  {
    if m in p.maes && p.maes[m] != 0.0 then 1.0 / p.maes[m] else 1.0
  }

  /** Some selected model has a validation MAE of 0, so `1.0 / mae` raises. */
  predicate ZeroMae(p: Predictor, sel: seq<string>) {
    exists k :: 0 <= k < |sel| && sel[k] in p.preds && sel[k] in p.maes && p.maes[sel[k]] == 0.0
  }

  /** `weights` before normalising: one entry per selected model. */
  function RawWeights(p: Predictor, sel: seq<string>): (w: map<string, real>)
    ensures w.Keys == set m | m in sel && m in p.preds
    ensures w.Keys <= p.preds.Keys
  {
    map m | m in sel && m in p.preds :: Raw(p, m)
  }

  /**
   * The MAE-weighted average. A MAE of 0 raises while the weights are built;
   * with no model loaded the weights are empty and `ValueError` follows; a
   * weight total of 0 otherwise raises when the weights are normalised.
   */
  function WeightedAverage(p: Predictor, sel: seq<string>): (o: Outcome)
    ensures ZeroMae(p, sel) ==> o.DivisionByZero?
    ensures !ZeroMae(p, sel) && |Available(p, sel)| == 0 ==> o.NoValidModels?
    ensures o.Ensembled? ==> o.weights.Keys == set m | m in sel && m in p.preds
  {
    if ZeroMae(p, sel) then DivisionByZero
    else
      var w := RawWeights(p, sel);
      var total := TotalOf(w, sel);
      if |Available(p, sel)| == 0 then NoValidModels
      else if total == 0.0 then DivisionByZero
      else Ensembled(WeightedTotal(p.preds, w, sel, total), map m | m in w :: w[m] / total)
  }

  method PredictWeightedAverage(p: Predictor, keyOrder: seq<string>, selected: Option<seq<string>>) returns (o: Outcome)
    ensures o == WeightedAverage(p, Selection(selected, keyOrder))
  {
    var sel := Selection(selected, keyOrder);
    var raised, weights, total := BuildWeights(p, sel);
    if raised {
      return DivisionByZero;
    }
    NoneAvailableIffNoWeights(p, sel);
    if total == 0.0 {
      // the normalised weights are empty, or dividing by zero raises
      if |weights| > 0 {
        return DivisionByZero;
      }
      return NoValidModels;
    }
    var count, acc := SumWeighted(p, sel, weights, total);
    if count == 0 {
      return NoValidModels;
    }
    o := Ensembled(acc, map m | m in weights :: weights[m] / total);
  }

  /** The first loop (lines 48-56) and `sum(weights.values())`; `raised` when `1.0 / mae` divides by zero. */
  method BuildWeights(p: Predictor, sel: seq<string>) returns (raised: bool, weights: map<string, real>, total: real)
    ensures raised == ZeroMae(p, sel)
    ensures !raised ==> weights == RawWeights(p, sel) && total == TotalOf(weights, sel)
  {
    ghost var all := RawWeights(p, sel);
    weights := map[];
    total := 0.0;
    for i := 0 to |sel|
      invariant weights == RawWeights(p, sel[..i])
      invariant total == TotalOf(all, sel[..i])
      invariant !ZeroMae(p, sel[..i])
    {
      var front := sel[..i];
      assert sel[..i + 1] == front + [sel[i]];
      assert sel[..i + 1][..i] == front;
      var m := sel[i];
      if m in p.preds && m in p.maes && p.maes[m] == 0.0 {
        ZeroMaeAt(p, sel, i);
        return true, weights, total;
      }
      if m in p.preds {
        var w := if m in p.maes then 1.0 / p.maes[m] else 1.0;
        assert w == Raw(p, m) == all[m];
        if m !in weights {
          total := total + w;
        }
        weights := weights[m := w];
      }
      NotZeroMaeStep(p, sel[..i + 1]);
    }
    assert sel[..|sel|] == sel;
    raised := false;
  }

  /** The second loop (lines 61-65) and `np.sum`. */
  method SumWeighted(p: Predictor, sel: seq<string>, weights: map<string, real>, total: real) returns (count: nat, acc: real)
    requires total != 0.0 && weights == RawWeights(p, sel)
    ensures count == |Available(p, sel)|
    ensures acc == WeightedTotal(p.preds, weights, sel, total)
  {
    count, acc := 0, 0.0;
    for i := 0 to |sel|
      invariant count == |Available(p, sel[..i])|
      invariant acc == WeightedTotal(p.preds, weights, sel[..i], total)
    {
      assert sel[..i + 1][..i] == sel[..i];
      var m := sel[i];
      assert m in weights <==> m in p.preds;
      if m in p.preds {
        acc := acc + p.preds[m] * (weights[m] / total);
        count := count + 1;
      }
    }
    assert sel[..|sel|] == sel;
  }

  lemma ZeroMaeAt(p: Predictor, sel: seq<string>, i: nat)
    requires i < |sel| && sel[i] in p.preds && sel[i] in p.maes && p.maes[sel[i]] == 0.0
    ensures ZeroMae(p, sel)
  {
  }

  lemma NotZeroMaeStep(p: Predictor, sel: seq<string>)
    requires |sel| > 0 && !ZeroMae(p, sel[..|sel| - 1])
    requires !(sel[|sel| - 1] in p.preds && sel[|sel| - 1] in p.maes && p.maes[sel[|sel| - 1]] == 0.0)
    ensures !ZeroMae(p, sel)
  {
    forall k | 0 <= k < |sel|
      ensures !(sel[k] in p.preds && sel[k] in p.maes && p.maes[sel[k]] == 0.0)
    {
      if k < |sel| - 1 {
        assert sel[..|sel| - 1][k] == sel[k];
      }
    }
  }

  lemma NoneAvailableIffNoWeights(p: Predictor, sel: seq<string>)
    ensures |Available(p, sel)| == 0 <==> |RawWeights(p, sel)| == 0
  {
    if |Available(p, sel)| != 0 {
      var k :| 0 <= k < |sel| && sel[k] in p.preds;
      assert sel[k] in RawWeights(p, sel);
    }
  }

  // ---- properties of the weighted average ------------------------------------

  /** A positive validation MAE gives a positive weight. */
  lemma RawPositive(p: Predictor, m: string)
    requires m in p.preds
    requires m in p.maes ==> p.maes[m] > 0.0
    ensures Raw(p, m) > 0.0
  {
    if m in p.maes {
      var e := p.maes[m];
      assert 1.0 / e > 0.0;
    }
  }

  /**
   * With positive validation MAEs and no model selected twice, the weighted
   * average is defined as soon as one selected model is loaded, and lies
   * within the range of the selected models' predictions.
   */
  lemma WeightedAverageBetween(p: Predictor, sel: seq<string>, lo: real, hi: real)
    requires NoRepeats(sel)
    requires forall x :: x in p.maes ==> p.maes[x] > 0.0
    requires forall m :: m in sel && m in p.preds ==> lo <= p.preds[m] <= hi
    requires |Available(p, sel)| > 0
    ensures WeightedAverage(p, sel).Ensembled?
    ensures lo <= WeightedAverage(p, sel).value <= hi
  {
    var w := RawWeights(p, sel);
    forall m | m in w
      ensures w[m] > 0.0 && lo <= p.preds[m] <= hi
    {
      RawPositive(p, m);
    }
    var k :| 0 <= k < |sel| && sel[k] in p.preds;
    RatioBetween(p.preds, w, sel, k, TotalOf(w, sel), lo, hi);
    assert !ZeroMae(p, sel);
  }

  // ---- predict_custom (lines 70-83) --------------------------------------------

  /** `order` lists the keys of the `custom_weights` dictionary, each once, in its iteration order. */
  predicate Listing(custom: map<string, real>, order: seq<string>) {
    NoRepeats(order) && (forall i :: 0 <= i < |order| ==> order[i] in custom) && (forall m :: m in custom ==> m in order)
  }

  /** Weights normalised over every named model, loaded or not. */
  function CustomAverage(p: Predictor, custom: map<string, real>, order: seq<string>): (o: Outcome)
    requires Listing(custom, order)
    ensures o.NoValidModels? <==> |custom| == 0 || (TotalOf(custom, order) != 0.0 && NoneLoaded(p.preds, custom, order))
    ensures o.Ensembled? ==> o.weights.Keys == custom.Keys
  {
    var total := TotalOf(custom, order);
    if |custom| == 0 then NoValidModels
    else if total == 0.0 then DivisionByZero
    else if NoneLoaded(p.preds, custom, order) then NoValidModels
    else Ensembled(WeightedTotal(p.preds, custom, order, total), map m | m in custom :: custom[m] / total)
  }

  method PredictCustom(p: Predictor, custom: map<string, real>, order: seq<string>) returns (o: Outcome)
    requires Listing(custom, order)
    ensures o == CustomAverage(p, custom, order)
  {
    var total := SumCustom(custom, order);
    if |custom| == 0 {
      return NoValidModels;
    }
    if total == 0.0 {
      return DivisionByZero;
    }
    var count, acc := SumCustomPredictions(p, custom, order, total);
    if count == 0 {
      return NoValidModels;
    }
    o := Ensembled(acc, map m | m in custom :: custom[m] / total);
  }

  /** `sum(custom_weights.values())`. */
  method SumCustom(custom: map<string, real>, order: seq<string>) returns (total: real)
    requires Listing(custom, order)
    ensures total == TotalOf(custom, order)
  {
    total := 0.0;
    for i := 0 to |order|
      invariant total == TotalOf(custom, order[..i])
    {
      LastIsNew(order[..i + 1]);
      assert order[..i + 1][..i] == order[..i];
      total := total + custom[order[i]];
    }
    assert order[..|order|] == order;
  }

  /** The loop over the normalised weights (lines 75-78) and `np.sum`. */
  method SumCustomPredictions(p: Predictor, custom: map<string, real>, order: seq<string>, total: real) returns (count: nat, acc: real)
    requires Listing(custom, order) && total != 0.0
    ensures count == 0 <==> NoneLoaded(p.preds, custom, order)
    ensures acc == WeightedTotal(p.preds, custom, order, total)
  {
    count, acc := 0, 0.0;
    for i := 0 to |order|
      invariant count == 0 <==> NoneLoaded(p.preds, custom, order[..i])
      invariant acc == WeightedTotal(p.preds, custom, order[..i], total)
    {
      var m := order[i];
      assert order[..i + 1] == order[..i] + [m];
      NoneLoadedStep(p.preds, custom, order[..i], m);
      WeightedStep(p.preds, custom, order[..i], m, total);
      if m in p.preds {
        acc := acc + p.preds[m] * (custom[m] / total);
        count := count + 1;
      }
    }
    assert order[..|order|] == order;
  }

  /**
   * When every loaded model predicts `c`, the custom average is `c` times the
   * loaded share of the total weight: weight on a name that is not loaded
   * pulls the prediction towards 0.
   */
  lemma CustomAverageUniform(p: Predictor, custom: map<string, real>, order: seq<string>, c: real, total: real)
    requires Listing(custom, order) && total == TotalOf(custom, order)
    requires CustomAverage(p, custom, order).Ensembled?
    requires forall m :: m in custom && m in p.preds ==> p.preds[m] == c
    ensures total != 0.0
    ensures CustomAverage(p, custom, order).value == c * (TotalOf(Loaded(custom, p.preds), order) / total)
  {
    CustomValue(p, custom, order);
    CustomUniformAt(p, custom, order, c, total);
  }

  lemma CustomUniformAt(p: Predictor, custom: map<string, real>, order: seq<string>, c: real, total: real)
    requires Listing(custom, order) && total != 0.0
    requires CustomAverage(p, custom, order).Ensembled?
    requires CustomAverage(p, custom, order).value == WeightedTotal(p.preds, custom, order, total)
    requires forall m :: m in custom && m in p.preds ==> p.preds[m] == c
    ensures CustomAverage(p, custom, order).value == c * (TotalOf(Loaded(custom, p.preds), order) / total)
  {
    WeightedUniform(p.preds, custom, order, c, total);
  }

  lemma CustomValue(p: Predictor, custom: map<string, real>, order: seq<string>)
    requires Listing(custom, order)
    requires CustomAverage(p, custom, order).Ensembled?
    ensures TotalOf(custom, order) != 0.0
    ensures CustomAverage(p, custom, order).value == WeightedTotal(p.preds, custom, order, TotalOf(custom, order))
  {
  }

  /** With positive weights all on loaded models, the custom average lies within their predictions' range. */
  lemma CustomAverageBetween(p: Predictor, custom: map<string, real>, order: seq<string>, lo: real, hi: real)
    requires Listing(custom, order) && |custom| > 0
    requires custom.Keys <= p.preds.Keys
    requires forall m :: m in custom ==> custom[m] > 0.0 && lo <= p.preds[m] <= hi
    ensures CustomAverage(p, custom, order).Ensembled?
    ensures lo <= CustomAverage(p, custom, order).value <= hi
  {
    var m :| m in custom;
    var k :| 0 <= k < |order| && order[k] == m;
    RatioBetween(p.preds, custom, order, k, TotalOf(custom, order), lo, hi);
    assert !NoneLoaded(p.preds, custom, order);
  }
}
