/**
 * Sums over a list of names weighted by a map from name to weight, as the
 * ensemble averages of src/predictions/predict_games.py compute them with
 * `sum(weights.values())` and `np.sum(pred * weight)`.
 */
module WeightedSums {
  import Numeric

  /** A list of names without repeats. */
  predicate NoRepeats(s: seq<string>) {
    forall i, j :: 0 <= i < j < |s| ==> s[i] != s[j]
  }

  /** `sum(w.values())` for a map whose keys come from `sel`: each key once, however often it occurs. */
  function TotalOf(w: map<string, real>, sel: seq<string>): real {
    if |sel| == 0 then 0.0
    else
      var m := sel[|sel| - 1];
      var front := sel[..|sel| - 1];
      TotalOf(w, front) + (if m in w && m !in front then w[m] else 0.0)
  }

  /** No name of `sel` has both a prediction in `v` and a weight in `w`: nothing is appended to `predictions`. */
  predicate NoneLoaded(v: map<string, real>, w: map<string, real>, sel: seq<string>) {
    forall k :: 0 <= k < |sel| ==> !(sel[k] in w && sel[k] in v)
  }

  /** `np.sum(predictions)`: prediction times normalised weight over `sel`, repeats included. */
  function WeightedTotal(v: map<string, real>, w: map<string, real>, sel: seq<string>, total: real): real
    requires total != 0.0
  {
    if |sel| == 0 then 0.0
    else
      var m := sel[|sel| - 1];
      WeightedTotal(v, w, sel[..|sel| - 1], total) + (if m in w && m in v then v[m] * (w[m] / total) else 0.0)
  }

  /** The weighted sum before dividing by the total. */
  function ProductOf(v: map<string, real>, w: map<string, real>, sel: seq<string>): real {
    if |sel| == 0 then 0.0
    else
      var m := sel[|sel| - 1];
      ProductOf(v, w, sel[..|sel| - 1]) + (if m in w && m in v then v[m] * w[m] else 0.0)
  }

  /** Normalising each weight is dividing the whole sum by the total. */
  lemma {:induction false} WeightedTotalIsRatio(v: map<string, real>, w: map<string, real>, sel: seq<string>, total: real)
    requires total != 0.0
    ensures WeightedTotal(v, w, sel, total) == ProductOf(v, w, sel) / total
    decreases |sel|
  {
    if |sel| > 0 {
      var m := sel[|sel| - 1];
      WeightedTotalIsRatio(v, w, sel[..|sel| - 1], total);
      if m in w && m in v {
        var x, r := v[m], w[m];
        assert x * (r / total) == (x * r) / total;
      }
    }
  }

  /** The last entry of a list without repeats is not among the earlier ones. */
  lemma LastIsNew(sel: seq<string>)
    requires |sel| > 0 && NoRepeats(sel)
    ensures sel[|sel| - 1] !in sel[..|sel| - 1]
    ensures NoRepeats(sel[..|sel| - 1])
  {
    var front := sel[..|sel| - 1];
    assert forall j :: 0 <= j < |front| ==> front[j] == sel[j];
  }

  /** With positive weights on loaded names only, the weighted sum is at least the total weight times a lower bound. */
  lemma {:induction false} ProductAbove(v: map<string, real>, w: map<string, real>, sel: seq<string>, lo: real)
    requires w.Keys <= v.Keys && NoRepeats(sel)
    requires forall m :: m in w ==> w[m] > 0.0 && lo <= v[m]
    ensures TotalOf(w, sel) * lo <= ProductOf(v, w, sel)
    decreases |sel|
  {
    if |sel| > 0 {
      var m := sel[|sel| - 1];
      var front := sel[..|sel| - 1];
      LastIsNew(sel);
      ProductAbove(v, w, front, lo);
      var tw, rt := TotalOf(w, front), ProductOf(v, w, front);
      if m in w {
        var r, x := w[m], v[m];
        assert TotalOf(w, sel) == tw + r;
        assert ProductOf(v, w, sel) == rt + x * r;
        Numeric.LowStepAt(tw, r, rt, x, lo, TotalOf(w, sel), ProductOf(v, w, sel));
      } else {
        assert TotalOf(w, sel) == tw;
        assert ProductOf(v, w, sel) == rt;
      }
    }
  }

  /** With positive weights on loaded names only, the weighted sum is at most the total weight times an upper bound. */
  lemma {:induction false} ProductBelow(v: map<string, real>, w: map<string, real>, sel: seq<string>, hi: real)
    requires w.Keys <= v.Keys && NoRepeats(sel)
    requires forall m :: m in w ==> w[m] > 0.0 && v[m] <= hi
    ensures ProductOf(v, w, sel) <= TotalOf(w, sel) * hi
    decreases |sel|
  {
    if |sel| > 0 {
      var m := sel[|sel| - 1];
      var front := sel[..|sel| - 1];
      LastIsNew(sel);
      ProductBelow(v, w, front, hi);
      var tw, rt := TotalOf(w, front), ProductOf(v, w, front);
      if m in w {
        var r, x := w[m], v[m];
        assert TotalOf(w, sel) == tw + r;
        assert ProductOf(v, w, sel) == rt + x * r;
        Numeric.HighStepAt(tw, r, rt, x, hi, TotalOf(w, sel), ProductOf(v, w, sel));
      } else {
        assert TotalOf(w, sel) == tw;
        assert ProductOf(v, w, sel) == rt;
      }
    }
  }

  lemma {:induction false} TotalNonNegative(w: map<string, real>, sel: seq<string>)
    requires forall m :: m in w ==> w[m] > 0.0
    ensures TotalOf(w, sel) >= 0.0
    decreases |sel|
  {
    if |sel| > 0 {
      TotalNonNegative(w, sel[..|sel| - 1]);
    }
  }

  /** Positive weights add up to a positive total once one name of `sel` has a weight. */
  lemma {:induction false} TotalPositive(w: map<string, real>, sel: seq<string>, k: nat)
    requires forall m :: m in w ==> w[m] > 0.0
    requires k < |sel| && sel[k] in w
    ensures TotalOf(w, sel) > 0.0
    decreases |sel|
  {
    var n := |sel| - 1;
    var front := sel[..n];
    TotalNonNegative(w, front);
    if k < n {
      assert front[k] == sel[k];
      TotalPositive(w, front, k);
    } else if sel[n] in front {
      var j :| 0 <= j < |front| && front[j] == sel[n];
      TotalPositive(w, front, j);
    }
  }

  /** Normalised positive weights make a convex combination: it stays within the predictions' range. */
  lemma RatioBetween(v: map<string, real>, w: map<string, real>, sel: seq<string>, k: nat, total: real, lo: real, hi: real)
    requires w.Keys <= v.Keys && NoRepeats(sel)
    requires forall m :: m in w ==> w[m] > 0.0 && lo <= v[m] <= hi
    requires k < |sel| && sel[k] in w && total == TotalOf(w, sel)
    ensures total > 0.0
    ensures lo <= WeightedTotal(v, w, sel, total) <= hi
  {
    TotalPositive(w, sel, k);
    var r := ProductOf(v, w, sel);
    assert total * lo <= r by { ProductAbove(v, w, sel, lo); }
    assert r <= total * hi by { ProductBelow(v, w, sel, hi); }
    RatioWithin(r, total, lo, hi);
    WeightedTotalIsRatio(v, w, sel, total);
  }

  lemma RatioWithin(r: real, total: real, lo: real, hi: real)
    requires total > 0.0 && total * lo <= r <= total * hi
    ensures lo <= r / total <= hi
  {
  }

  /** The weights of the names that have a prediction. */
  function Loaded(w: map<string, real>, v: map<string, real>): (l: map<string, real>)
    ensures l.Keys == w.Keys * v.Keys
    ensures forall m :: m in l ==> l[m] == w[m]
  {
    map m | m in w && m in v :: w[m]
  }

  lemma NoneLoadedStep(v: map<string, real>, w: map<string, real>, front: seq<string>, m: string)
    ensures NoneLoaded(v, w, front + [m]) <==> NoneLoaded(v, w, front) && !(m in w && m in v)
  {
    var sel := front + [m];
    assert forall j :: 0 <= j < |front| ==> sel[j] == front[j];
    assert sel[|front|] == m;
  }

  lemma WeightedStep(v: map<string, real>, w: map<string, real>, front: seq<string>, m: string, total: real)
    requires total != 0.0
    ensures WeightedTotal(v, w, front + [m], total) == WeightedTotal(v, w, front, total) + (if m in w && m in v then v[m] * (w[m] / total) else 0.0)
  {
    assert (front + [m])[..|front|] == front;
  }

  /** When every loaded name predicts `c`, the normalised sum is `c` times the loaded share of the weight. */
  lemma {:induction false} WeightedUniform(v: map<string, real>, w: map<string, real>, sel: seq<string>, c: real, total: real)
    requires NoRepeats(sel) && total != 0.0
    requires forall m :: m in w && m in v ==> v[m] == c
    ensures WeightedTotal(v, w, sel, total) == c * (TotalOf(Loaded(w, v), sel) / total)
    decreases |sel|
  {
    if |sel| > 0 {
      var m := sel[|sel| - 1];
      var front := sel[..|sel| - 1];
      var l := Loaded(w, v);
      LastIsNew(sel);
      WeightedUniform(v, w, front, c, total);
      var tl, wf := TotalOf(l, front), WeightedTotal(v, w, front, total);
      if m in w && m in v {
        var r := w[m];
        assert v[m] == c;
        assert WeightedTotal(v, w, sel, total) == wf + c * (r / total);
        assert TotalOf(l, sel) == tl + r;
        ScaledSum(wf, c, tl, r, TotalOf(l, sel), total);
      } else {
        assert WeightedTotal(v, w, sel, total) == wf;
        assert TotalOf(l, sel) == tl;
      }
    } else {
      var z := TotalOf(Loaded(w, v), sel);
      assert z == 0.0;
      assert c * (z / total) == 0.0;
    }
  }

  lemma ScaledSum(s: real, c: real, x: real, y: real, t: real, total: real)
    requires total != 0.0 && s == c * (x / total) && t == x + y
    ensures s + c * (y / total) == c * (t / total)
  {
  }
}
