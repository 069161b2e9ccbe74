/**
 * Prediction evaluation (src/predictions/evaluate_predictions.py): for one
 * model version and date, each prediction of a completed game is compared
 * with the player's box score, and the seven actual values and the rounded
 * mean absolute error are written back to that prediction.
 *
 * The `predictions` table is a map from `prediction_id` to the row; the
 * box scores are a map from (game, player) to the stat line; the query of
 * lines 51-68 is the sequence of prediction ids it returns.
 */
module Evaluation {
  import opened Wrappers
  import Numeric

  /** The seven evaluated statistics; the database may hold NULL in any of them. */
  datatype Line = Line(
    points: Option<real>, rebounds: Option<real>, assists: Option<real>, steals: Option<real>,
    blocks: Option<real>, turnovers: Option<real>, threes: Option<real>)

  function Values(l: Line): (v: seq<Option<real>>)
    ensures |v| == 7
  {
    [l.points, l.rebounds, l.assists, l.steals, l.blocks, l.turnovers, l.threes]
  }

  function Abs(x: real): real { if x < 0.0 then -x else x }

  function AbsErrors(p: seq<real>, a: seq<real>): (e: seq<real>)
    requires |p| == |a|
    ensures |e| == |p|
    ensures forall i :: 0 <= i < |e| ==> e[i] == Abs(p[i] - a[i])
  {
    seq(|p|, i requires 0 <= i < |p| => Abs(p[i] - a[i]))
  }

  /** `avg_error` (lines 103-112): the mean of the absolute errors. */
  function AvgError(p: seq<real>, a: seq<real>): real
    requires |p| == |a| == 7
  {
    Numeric.Sum(AbsErrors(p, a)) / 7.0
  }

  /** The error is never negative, and it is zero exactly when every prediction was exact. */
  lemma AvgErrorZeroIffExact(p: seq<real>, a: seq<real>)
    requires |p| == |a| == 7
    ensures AvgError(p, a) >= 0.0
    ensures AvgError(p, a) == 0.0 <==> p == a
  {
    var e := AbsErrors(p, a);
    Numeric.SumNonNegative(e);
    if p != a {
      var k :| 0 <= k < 7 && p[k] != a[k];
      assert e[k] != 0.0;
    }
  }

  /** Every value of a line, when none is NULL. */
  function AllPresent(l: Line): (r: Option<seq<real>>)
    ensures r.Some? <==> forall i :: 0 <= i < 7 ==> Values(l)[i].Some?
    ensures r.Some? ==> |r.value| == 7 && forall i :: 0 <= i < 7 ==> Values(l)[i] == Some(r.value[i])
  {
    var v := Values(l);
    if forall i :: 0 <= i < 7 ==> v[i].Some? then Some(seq(7, i requires 0 <= i < 7 => v[i].value)) else None
  }

  /**
   * The stored `prediction_error`, `round(avg_error, 2)`; `None` when a NULL on
   * either side makes the subtraction raise.
   */
  function StoredError(predicted: Line, actual: Line): (r: Option<real>)
    ensures r.Some? <==> AllPresent(predicted).Some? && AllPresent(actual).Some?
    ensures r.Some? ==> r.value == Numeric.RoundTo(AvgError(AllPresent(predicted).value, AllPresent(actual).value), 2)
  {
    var p := AllPresent(predicted);
    var a := AllPresent(actual);
    if p.Some? && a.Some? then Some(Numeric.RoundTo(AvgError(p.value, a.value), 2)) else None
  }

  /** A stored error is never negative, and an exact prediction stores 0. */
  lemma StoredErrorBounds(predicted: Line, actual: Line)
    requires StoredError(predicted, actual).Some?
    ensures StoredError(predicted, actual).value >= 0.0
    ensures predicted == actual ==> StoredError(predicted, actual).value == 0.0
  {
    var p := AllPresent(predicted).value;
    var a := AllPresent(actual).value;
    AvgErrorZeroIffExact(p, a);
    Numeric.RoundNonNegative(AvgError(p, a), 2);
    if predicted == actual {
      assert p == a;
      Numeric.RoundInteger(0);
      assert Numeric.RoundTo(0.0, 2) == 0.0;
    }
  }

  // ---- the table -----------------------------------------------------------

  /** A `predictions` row; `other` stands for every column the evaluation does not write. */
  datatype Prediction = Prediction(
    gameId: int, playerId: int, date: int, version: Option<string>,
    predicted: Line, actual: Line, error: Option<real>, other: seq<string>)

  type Table = map<int, Prediction>

  /** The query of lines 51-68: the date, the model version and a completed game. */
  predicate Selected(t: Table, id: int, date: int, version: string, completed: set<int>) {
    id in t && t[id].date == date && t[id].version == Some(version) && t[id].gameId in completed
  }

  /** What one prediction's turn of the loop does. */
  datatype Step = NoStats | Raised | Updated(row: Prediction)

  /**
   * Lines 85-148: no box score skips the prediction; a NULL that makes the
   * error raise is counted under `errors`; otherwise the UPDATE writes the
   * seven actual values and the stored error.
   */
  function Evaluate(p: Prediction, stats: map<(int, int), Line>): (s: Step)
    ensures s.NoStats? <==> (p.gameId, p.playerId) !in stats
    ensures s.Updated? ==> s.row == p.(actual := stats[(p.gameId, p.playerId)], error := s.row.error)
    ensures s.Updated? ==> s.row.error == StoredError(p.predicted, stats[(p.gameId, p.playerId)]) && s.row.error.Some?
  {
    var key := (p.gameId, p.playerId);
    if key !in stats then NoStats
    else
      var e := StoredError(p.predicted, stats[key]);
      if e.None? then Raised else Updated(p.(actual := stats[key], error := e))
  }

  /** Evaluating an evaluated row again gives the same row: the step reads only ids and predictions. */
  lemma EvaluateIdempotent(p: Prediction, stats: map<(int, int), Line>)
    requires Evaluate(p, stats).Updated?
    ensures Evaluate(Evaluate(p, stats).row, stats) == Evaluate(p, stats)
  {
  }

  /** The row after the loop has visited it (or the row unchanged). */
  function AfterStep(p: Prediction, stats: map<(int, int), Line>): Prediction {
    var s := Evaluate(p, stats);
    if s.Updated? then s.row else p
  }

  /** The table after the loop visited the ids in `done`. */
  function Evaluated(t: Table, done: seq<int>, stats: map<(int, int), Line>): (u: Table)
    ensures u.Keys == t.Keys
  {
    map id | id in t :: if id in done then AfterStep(t[id], stats) else t[id]
  }

  /** How many of the ids the loop counts under a given step kind. */
  function CountUpdated(t: Table, ids: seq<int>, stats: map<(int, int), Line>): nat
    requires forall i :: 0 <= i < |ids| ==> ids[i] in t
  {
    if |ids| == 0 then 0
    else CountUpdated(t, ids[..|ids| - 1], stats) + (if Evaluate(t[ids[|ids| - 1]], stats).Updated? then 1 else 0)
  }

  function CountRaised(t: Table, ids: seq<int>, stats: map<(int, int), Line>): nat
    requires forall i :: 0 <= i < |ids| ==> ids[i] in t
  {
    if |ids| == 0 then 0
    else CountRaised(t, ids[..|ids| - 1], stats) + (if Evaluate(t[ids[|ids| - 1]], stats).Raised? then 1 else 0)
  }

  function CountNoStats(t: Table, ids: seq<int>, stats: map<(int, int), Line>): nat
    requires forall i :: 0 <= i < |ids| ==> ids[i] in t
  {
    if |ids| == 0 then 0
    else CountNoStats(t, ids[..|ids| - 1], stats) + (if Evaluate(t[ids[|ids| - 1]], stats).NoStats? then 1 else 0)
  }

  /** Every prediction the query returned is updated, counted as an error, or skipped. */
  lemma {:induction false} CountsAddUp(t: Table, ids: seq<int>, stats: map<(int, int), Line>)
    requires forall i :: 0 <= i < |ids| ==> ids[i] in t
    ensures CountUpdated(t, ids, stats) + CountRaised(t, ids, stats) + CountNoStats(t, ids, stats) == |ids|
    decreases |ids|
  {
    if |ids| > 0 {
      CountsAddUp(t, ids[..|ids| - 1], stats);
    }
  }

  /**
   * The loop of lines 81-148 for one model version, over the ids the query
   * returned; the UPDATEs become the returned table.
   */
  method EvaluateModel(t: Table, ids: seq<int>, date: int, version: string, completed: set<int>, stats: map<(int, int), Line>)
    returns (u: Table, updated: nat, errors: nat)
    requires forall i :: 0 <= i < |ids| ==> ids[i] in t && Selected(t, ids[i], date, version, completed)
    ensures u == Evaluated(t, ids, stats)
    ensures updated == CountUpdated(t, ids, stats)
    ensures errors == CountRaised(t, ids, stats)
  {
    u := t;
    updated, errors := 0, 0;
    for i := 0 to |ids|
      invariant Visited(t, u, ids[..i], stats)
      invariant updated == CountUpdated(t, ids[..i], stats)
      invariant errors == CountRaised(t, ids[..i], stats)
    {
      assert ids[..i + 1] == ids[..i] + [ids[i]];
      var id := ids[i];
      var step := Evaluate(u[id], stats);
      VisitOne(t, u, ids[..i], id, stats);
      match step {
        case NoStats =>
        case Raised =>
          errors := errors + 1;
        case Updated(row) =>
          u := u[id := row];
          updated := updated + 1;
      }
    }
    assert ids[..|ids|] == ids;
    VisitedAll(t, u, ids, stats);
  }

  /** The loop's table invariant: the visited rows are evaluated, the others untouched. */
  predicate Visited(t: Table, u: Table, done: seq<int>, stats: map<(int, int), Line>) {
    u.Keys == t.Keys &&
    forall id :: id in t ==> u[id] == (if id in done then AfterStep(t[id], stats) else t[id])
  }

  /** One more prediction visited: the loop body's write keeps the invariant and counts as the step says. */
  lemma VisitOne(t: Table, u: Table, done: seq<int>, id: int, stats: map<(int, int), Line>)
    requires Visited(t, u, done, stats) && id in t
    ensures Evaluate(u[id], stats) == Evaluate(t[id], stats)
    ensures var s := Evaluate(u[id], stats); Visited(t, if s.Updated? then u[id := s.row] else u, done + [id], stats)
  {
    StepAgain(t[id], u[id], stats);
    assert forall x :: x in done + [id] <==> x in done || x == id;
  }

  lemma VisitedAll(t: Table, u: Table, ids: seq<int>, stats: map<(int, int), Line>)
    requires Visited(t, u, ids, stats)
    ensures u == Evaluated(t, ids, stats)
  {
    forall id | id in u
      ensures u[id] == Evaluated(t, ids, stats)[id]
    {
    }
  }

  /** The row seen by the loop is the original or its evaluated form; either gives the same step. */
  lemma StepAgain(p: Prediction, q: Prediction, stats: map<(int, int), Line>)
    requires q == p || q == AfterStep(p, stats)
    ensures Evaluate(q, stats) == Evaluate(p, stats)
    ensures AfterStep(q, stats) == AfterStep(p, stats)
  {
  }

  // ---- properties ------------------------------------------------------------

  /**
   * Only predictions of the date, the model version and a completed game with
   * a box score change, and in those only the actual values and the error.
   */
  lemma OnlyEvaluatedColumnsChange(t: Table, ids: seq<int>, date: int, version: string, completed: set<int>,
                                   stats: map<(int, int), Line>, id: int)
    requires forall i :: 0 <= i < |ids| ==> Selected(t, ids[i], date, version, completed)
    requires id in t
    ensures var u := Evaluated(t, ids, stats);
      u[id] != t[id] ==>
        Selected(t, id, date, version, completed) && (t[id].gameId, t[id].playerId) in stats &&
        u[id] == t[id].(actual := stats[(t[id].gameId, t[id].playerId)], error := u[id].error)
  {
  }

  /** Running the evaluation twice over the same ids leaves the table as the first run left it. */
  lemma RerunSameTable(t: Table, done: seq<int>, stats: map<(int, int), Line>)
    ensures Evaluated(Evaluated(t, done, stats), done, stats) == Evaluated(t, done, stats)
  {
    var u := Evaluated(t, done, stats);
    forall id | id in t && id in done
      ensures AfterStep(u[id], stats) == u[id]
    {
      StepAgain(t[id], u[id], stats);
    }
  }

  // ---- the summary -----------------------------------------------------------

  /** One model's metrics row: the points MAE (AVG, so possibly NULL) and the overall MAE. */
  datatype Metrics = Metrics(version: string, pointsMae: Option<real>, overall: real)

  /** `if metrics and metrics[0]`: a NULL or zero points MAE leaves the model out of `all_metrics`. */
  predicate Reported(m: Metrics) {
    m.pointsMae.Some? && m.pointsMae.value != 0.0
  }

  function ReportedMetrics(ms: seq<Metrics>): (r: seq<Metrics>)
    ensures forall m :: m in r <==> m in ms && Reported(m)
  {
    if |ms| == 0 then []
    else
      var last := ms[|ms| - 1];
      assert forall m :: m in ms <==> m in ms[..|ms| - 1] || m == last;
      ReportedMetrics(ms[..|ms| - 1]) + (if Reported(last) then [last] else [])
  }

  predicate ByOverall(ms: seq<Metrics>) {
    forall i, j :: 0 <= i < j < |ms| ==> ms[i].overall <= ms[j].overall
  }

  /** Stable insertion: `m` goes after every entry with an overall MAE not above its own. */
  function InsertByOverall(ms: seq<Metrics>, m: Metrics): (r: seq<Metrics>)
    requires ByOverall(ms)
    ensures ByOverall(r)
    ensures multiset(r) == multiset(ms) + multiset{m}
  {
    if |ms| == 0 then [m]
    else if m.overall < ms[0].overall then [m] + ms
    else
      var tail := ms[1..];
      var rest := InsertByOverall(tail, m);
      assert multiset(rest) == multiset(tail) + multiset{m};
      assert forall k :: 0 <= k < |rest| ==> ms[0].overall <= rest[k].overall by {
        forall k | 0 <= k < |rest| ensures ms[0].overall <= rest[k].overall {
          assert rest[k] in multiset(rest);
          assert rest[k] in tail || rest[k] == m;
        }
      }
      assert ms == [ms[0]] + tail;
      [ms[0]] + rest
  }

  /** `sorted(all_metrics.items(), key=overall)` (line 216). */
  function SortByOverall(ms: seq<Metrics>): (r: seq<Metrics>)
    ensures ByOverall(r)
    ensures multiset(r) == multiset(ms)
  {
    if |ms| == 0 then []
    else
      var n := |ms| - 1;
      assert ms == ms[..n] + [ms[n]];
      InsertByOverall(SortByOverall(ms[..n]), ms[n])
  }

  /** The summary table: the reported models, lowest overall MAE first. */
  function Summary(ms: seq<Metrics>): (r: seq<Metrics>)
    ensures ByOverall(r)
    ensures forall m :: m in r <==> m in ms && Reported(m)
  {
    var reported := ReportedMetrics(ms);
    var r := SortByOverall(reported);
    assert forall m :: m in r <==> m in multiset(reported);
    r
  }

  /** A model whose points predictions were all exact has a points MAE of 0 and is left out. */
  lemma ExactPointsNotReported(ms: seq<Metrics>, m: Metrics)
    requires m.pointsMae == Some(0.0)
    ensures m !in Summary(ms)
  {
  }
}
