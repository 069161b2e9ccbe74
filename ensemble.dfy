/**
 * Ensemble predictions (src/predictions/ensemble_utils.py): the stored
 * predictions of several model versions for a date's scheduled games are
 * averaged per (player, game, date), rounded, and tagged with the
 * `+`-joined sorted list of the model versions.
 *
 * The query result is a sequence of prediction rows and the scheduled games
 * a set of ids; the returned DataFrame is a map from the group key to the
 * averaged row.
 */
module Ensemble {
  import opened Wrappers
  import Text
  import Numeric

  // ---- the model list and its tag --------------------------------------------

  /** `if not model_types`: a missing or empty list means `['xgboost']`. */
  function ModelTypes(given: Option<seq<string>>): (m: seq<string>)
    ensures |m| > 0
    ensures given.Some? && |given.value| > 0 ==> m == given.value
    ensures (given.None? || given.value == []) ==> m == ["xgboost"]
  {
    if given.None? || |given.value| == 0 then ["xgboost"] else given.value
  }

  predicate SortedStrings(s: seq<string>) {
    forall i, j :: 0 <= i < j < |s| ==> Text.LexLessEq(s[i], s[j])
  }

  /** `x` placed before the first entry it does not follow. */
  function InsertString(s: seq<string>, x: string): (r: seq<string>)
    requires SortedStrings(s)
    ensures SortedStrings(r)
    ensures multiset(r) == multiset(s) + multiset{x}
  {
    if |s| == 0 then [x]
    else if Text.LexLessEq(x, s[0]) then
      assert forall j :: 0 <= j < |s| ==> Text.LexLessEq(x, s[j]) by {
        forall j | 0 <= j < |s| ensures Text.LexLessEq(x, s[j]) {
          if x != s[0] && s[0] != s[j] { Text.LexLessTransitive(x, s[0], s[j]); }
        }
      }
      [x] + s
    else
      Text.LexLessTotal(x, s[0]);
      var tail := s[1..];
      var rest := InsertString(tail, x);
      assert forall k :: 0 <= k < |rest| ==> Text.LexLessEq(s[0], rest[k]) by {
        forall k | 0 <= k < |rest| ensures Text.LexLessEq(s[0], rest[k]) {
          assert rest[k] in multiset(rest);
          assert rest[k] in tail || rest[k] == x;
        }
      }
      assert s == [s[0]] + tail;
      [s[0]] + rest
  }

  /** Python's `sorted` on a list of strings. */
  function SortStrings(s: seq<string>): (r: seq<string>)
    ensures SortedStrings(r)
    ensures multiset(r) == multiset(s)
  {
    if |s| == 0 then []
    else
      var n := |s| - 1;
      assert s == s[..n] + [s[n]];
      InsertString(SortStrings(s[..n]), s[n])
  }

  /** The head of a sorted list comes first. */
  lemma SortedHeadFirst(a: seq<string>, x: string)
    requires SortedStrings(a) && x in a
    ensures Text.LexLessEq(a[0], x)
  {
    var i :| 0 <= i < |a| && a[i] == x;
  }

  lemma SortedTail(a: seq<string>)
    requires SortedStrings(a) && |a| > 0
    ensures SortedStrings(a[1..])
  {
    forall i, j | 0 <= i < j < |a| - 1 ensures Text.LexLessEq(a[1..][i], a[1..][j]) { assert a[1..][i] == a[i + 1]; }
  }

  /** Two sorted lists with the same elements are the same list. */
  lemma {:induction false} SortedUnique(a: seq<string>, b: seq<string>)
    requires SortedStrings(a) && SortedStrings(b) && multiset(a) == multiset(b)
    ensures a == b
    decreases |a|
  {
    if |a| > 0 {
      assert |b| == |a| by { assert |multiset(b)| == |multiset(a)|; }
      assert b[0] in multiset(a) && a[0] in multiset(b);
      SortedHeadFirst(a, b[0]);
      SortedHeadFirst(b, a[0]);
      if a[0] != b[0] {
        Text.LexLessAsymmetric(a[0], b[0]);
      }
      var x := a[0];
      assert a == [x] + a[1..] && b == [x] + b[1..];
      assert multiset(a[1..]) == multiset(a) - multiset{x};
      assert multiset(b[1..]) == multiset(b) - multiset{x};
      SortedTail(a);
      SortedTail(b);
      SortedUnique(a[1..], b[1..]);
    }
  }

  /** `'+'.join(sorted(model_types))`. */
  function Tag(models: seq<string>): string {
    Text.Join(SortStrings(models), "+")
  }

  /** The tag does not depend on the order in which the model types were given. */
  lemma TagOrderIndependent(a: seq<string>, b: seq<string>)
    requires multiset(a) == multiset(b)
    ensures Tag(a) == Tag(b)
  {
    SortedUnique(SortStrings(a), SortStrings(b));
  }

  /** The tag's `+`-separated parts are the model types, sorted, when no model name holds a `+`. */
  lemma TagSplitsBack(models: seq<string>)
    requires forall k :: 0 <= k < |models| ==> '+' !in models[k]
    ensures Text.Split(Tag(models), '+') == if |models| == 0 then [""] else SortStrings(models)
  {
    var s := SortStrings(models);
    forall k | 0 <= k < |s|
      ensures '+' !in s[k]
    {
      assert s[k] in multiset(models);
    }
    if |s| > 0 {
      Text.SplitJoin(s, '+');
    }
  }

  // ---- the group-by mean ---------------------------------------------------------

  /** A row of the query of lines 25-44; `stats` holds the seven predicted columns in order. */
  datatype Row = Row(player: int, game: int, date: int, version: string, stats: seq<real>, confidence: real)

  datatype Key = Key(player: int, game: int, date: int)

  function KeyOf(r: Row): Key { Key(r.player, r.game, r.date) }

  predicate SevenStats(rows: seq<Row>) {
    forall i :: 0 <= i < |rows| ==> |rows[i].stats| == 7
  }

  /** The date, a scheduled game and one of the model types. */
  function Selected(rows: seq<Row>, date: int, scheduled: set<int>, models: seq<string>): (r: seq<Row>)
    ensures forall x :: x in r <==> x in rows && x.date == date && x.game in scheduled && x.version in models
    ensures SevenStats(rows) ==> SevenStats(r)
  {
    if |rows| == 0 then []
    else
      var last := rows[|rows| - 1];
      var front := rows[..|rows| - 1];
      assert forall x :: x in rows <==> x in front || x == last;
      assert SevenStats(rows) ==> SevenStats(front) by {
        if SevenStats(rows) { forall i | 0 <= i < |front| ensures |front[i].stats| == 7 { assert front[i] == rows[i]; } }
      }
      Selected(front, date, scheduled, models) + (if last.date == date && last.game in scheduled && last.version in models then [last] else [])
  }

  /** The rows of one group, in order. */
  function Members(rows: seq<Row>, key: Key): (g: seq<Row>)
    ensures forall x :: x in g <==> x in rows && KeyOf(x) == key
    ensures SevenStats(rows) ==> SevenStats(g)
  {
    if |rows| == 0 then []
    else
      var last := rows[|rows| - 1];
      var front := rows[..|rows| - 1];
      assert forall x :: x in rows <==> x in front || x == last;
      assert SevenStats(rows) ==> SevenStats(front) by {
        if SevenStats(rows) { forall i | 0 <= i < |front| ensures |front[i].stats| == 7 { assert front[i] == rows[i]; } }
      }
      Members(front, key) + (if KeyOf(last) == key then [last] else [])
  }

  function Column(g: seq<Row>, k: nat): (c: seq<real>)
    requires SevenStats(g) && k < 7
    ensures |c| == |g| && forall i :: 0 <= i < |g| ==> c[i] == g[i].stats[k]
  {
    seq(|g|, i requires 0 <= i < |g| => g[i].stats[k])
  }

  function Confidences(g: seq<Row>): (c: seq<real>)
    ensures |c| == |g| && forall i :: 0 <= i < |g| ==> c[i] == g[i].confidence
  {
    seq(|g|, i requires 0 <= i < |g| => g[i].confidence)
  }

  /** An averaged row: seven stats rounded to one decimal, an integer confidence and the tag. */
  datatype Combined = Combined(stats: seq<real>, confidence: int, version: string)

  function Combine(g: seq<Row>, tag: string): (c: Combined)
    requires |g| > 0 && SevenStats(g)
    ensures |c.stats| == 7 && c.version == tag
  {
    Combined(
      seq(7, k requires 0 <= k < 7 => Numeric.RoundTo(Numeric.Mean(Column(g, k)), 1)),
      Numeric.RoundHalfEven(Numeric.Mean(Confidences(g))),
      tag)
  }

  function Keys(rows: seq<Row>): set<Key> {
    set r | r in rows :: KeyOf(r)
  }

  /** `get_ensemble_predictions` after the query: one averaged row per group. */
  function EnsemblePredictions(rows: seq<Row>, date: int, scheduled: set<int>, given: Option<seq<string>>): (e: map<Key, Combined>)
    requires SevenStats(rows)
    ensures e.Keys == Keys(Selected(rows, date, scheduled, ModelTypes(given)))
  {
    var models := ModelTypes(given);
    var sel := Selected(rows, date, scheduled, models);
    map key | key in Keys(sel) :: Combine(Members(sel, key), Tag(models))
  }

  // ---- properties ------------------------------------------------------------

  /** No matching rows: an empty result. */
  lemma NoRowsNoEnsemble(rows: seq<Row>, date: int, scheduled: set<int>, given: Option<seq<string>>)
    requires SevenStats(rows)
    requires forall r :: r in rows ==> r.date != date || r.game !in scheduled
    ensures EnsemblePredictions(rows, date, scheduled, given) == map[]
  {
    var sel := Selected(rows, date, scheduled, ModelTypes(given));
    assert forall r :: r !in sel;
    assert Keys(sel) == {};
  }

  /** Every ensembled row carries the same tag, whatever order the model types came in. */
  lemma SameTagEverywhere(rows: seq<Row>, date: int, scheduled: set<int>, a: seq<string>, b: seq<string>, key: Key)
    requires SevenStats(rows) && |a| > 0
    requires multiset(a) == multiset(b)
    requires key in EnsemblePredictions(rows, date, scheduled, Some(a))
    ensures EnsemblePredictions(rows, date, scheduled, Some(a))[key].version == Tag(b)
  {
    TagOrderIndependent(a, b);
  }

  /** The averaged row of a group, as the result holds it. */
  lemma GroupRow(rows: seq<Row>, date: int, scheduled: set<int>, given: Option<seq<string>>, key: Key)
    requires SevenStats(rows)
    requires key in EnsemblePredictions(rows, date, scheduled, given)
    ensures var g := Members(Selected(rows, date, scheduled, ModelTypes(given)), key);
      |g| > 0 && SevenStats(g) && EnsemblePredictions(rows, date, scheduled, given)[key] == Combine(g, Tag(ModelTypes(given)))
  {
  }

  /** A group's averaged stat lies within its members' range, up to the half-unit of rounding to one decimal. */
  lemma CombineBetween(g: seq<Row>, tag: string, k: nat, lo: real, hi: real)
    requires |g| > 0 && SevenStats(g) && k < 7
    requires forall r :: r in g ==> lo <= r.stats[k] <= hi
    ensures lo - 0.05 <= Combine(g, tag).stats[k] <= hi + 0.05
  {
    var c := Column(g, k);
    assert forall i :: 0 <= i < |c| ==> lo <= c[i] <= hi by {
      forall i | 0 <= i < |c| ensures lo <= c[i] <= hi { assert g[i] in g; }
    }
    Numeric.MeanBetween(c, lo, hi);
    var m := Numeric.Mean(c);
    var r := Numeric.RoundTo(m, 1);
    assert Text.Pow10(1) == 10;
    assert -0.5 <= m * 10.0 - r * 10.0 <= 0.5;
    assert Combine(g, tag).stats[k] == r;
  }

  /**
   * Each averaged stat lies between the group's smallest and largest value,
   * up to the half-unit of the final rounding to one decimal.
   */
  lemma StatBetweenMembers(rows: seq<Row>, date: int, scheduled: set<int>, given: Option<seq<string>>,
                           key: Key, k: nat, lo: real, hi: real)
    requires SevenStats(rows) && k < 7
    requires key in EnsemblePredictions(rows, date, scheduled, given)
    requires forall r :: r in Members(Selected(rows, date, scheduled, ModelTypes(given)), key) ==> lo <= r.stats[k] <= hi
    ensures lo - 0.05 <= EnsemblePredictions(rows, date, scheduled, given)[key].stats[k] <= hi + 0.05
  {
    GroupRow(rows, date, scheduled, given, key);
    CombineBetween(Members(Selected(rows, date, scheduled, ModelTypes(given)), key), Tag(ModelTypes(given)), k, lo, hi);
  }

  /** The confidence is the group's mean confidence rounded to the nearest integer. */
  lemma ConfidenceNearMean(rows: seq<Row>, date: int, scheduled: set<int>, given: Option<seq<string>>, key: Key)
    requires SevenStats(rows)
    requires key in EnsemblePredictions(rows, date, scheduled, given)
    ensures var g := Members(Selected(rows, date, scheduled, ModelTypes(given)), key);
      |g| > 0 &&
      var m := Numeric.Mean(Confidences(g));
      var c := EnsemblePredictions(rows, date, scheduled, given)[key].confidence as real;
      m - 0.5 <= c <= m + 0.5
  {
    GroupRow(rows, date, scheduled, given, key);
  }

  /** A single-row group keeps that row's value, rounded to one decimal. */
  lemma CombineSingle(g: seq<Row>, tag: string, k: nat)
    requires |g| == 1 && SevenStats(g) && k < 7
    ensures Combine(g, tag).stats[k] == Numeric.RoundTo(g[0].stats[k], 1)
  {
    var c := Column(g, k);
    assert c == [g[0].stats[k]];
    assert c[..0] == [];
    assert Numeric.Sum(c) == g[0].stats[k];
  }

  /** A group with a single model's row keeps that row's values, rounded. */
  lemma SingleMemberKept(rows: seq<Row>, date: int, scheduled: set<int>, given: Option<seq<string>>, key: Key, k: nat)
    requires SevenStats(rows) && k < 7
    requires key in EnsemblePredictions(rows, date, scheduled, given)
    requires |Members(Selected(rows, date, scheduled, ModelTypes(given)), key)| == 1
    ensures var g := Members(Selected(rows, date, scheduled, ModelTypes(given)), key);
      EnsemblePredictions(rows, date, scheduled, given)[key].stats[k] == Numeric.RoundTo(g[0].stats[k], 1)
  {
    GroupRow(rows, date, scheduled, given, key);
    CombineSingle(Members(Selected(rows, date, scheduled, ModelTypes(given)), key), Tag(ModelTypes(given)), k);
  }
}
