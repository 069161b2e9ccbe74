/**
 * The keys of the browser prediction cache of app/src/lib/cache.ts: the key
 * a prediction set is stored under (lines 88-90 and 111-113), the model list
 * and the date read back out of a key (lines 224 and 302-303), and the
 * three-field key of the model-performance store (lines 343-353).
 */
module CacheKeys {
  import opened Wrappers
  import opened Text
  import opened JsText

  /** The marker between the date and the model names. */
  const ModelsTag: string := "|models:"

  /**
   * The prediction key: the date alone when no model list is given or the
   * list is empty, otherwise the date, the marker and the names joined
   * by '|'.
   */
  function PredictionKey(date: string, models: Option<seq<string>>): string {
    if models.Some? && |models.value| > 0 then date + ModelsTag + Join(models.value, "|") else date
  }

  /** The model list an entry reports: the second piece of the key split on the marker, if any. */
  function ModelsOfKey(key: string): Option<string> {
    var parts := SplitOn(key, ModelsTag);
    if |parts| > 1 then Some(parts[1]) else None
  }

  /** The date cleanup compares: the piece of the key before its first '|'. */
  function DateOnly(key: string): string {
    Split(key, '|')[0]
  }

  /** A prediction entry older than the cutoff date string: its date sorts before it. */
  predicate Expired(key: string, cutoff: string) {
    LexLess(DateOnly(key), cutoff)
  }

  /** No character `c` in a join whose pieces and separator lack it. */
  lemma {:induction false} JoinLacks(parts: seq<string>, sep: string, c: char)
    requires c !in sep && forall k :: 0 <= k < |parts| ==> c !in parts[k]
    ensures c !in Join(parts, sep)
    decreases |parts|
  {
    if |parts| > 1 {
      JoinLacks(parts[1..], sep, c);
    }
  }

  /** A date without '|' in front of the marker is where the first marker starts. */
  lemma MarkerAfterDate(date: string, rest: string)
    requires '|' !in date
    ensures SplitOn(date + ModelsTag + rest, ModelsTag) == [date] + SplitOn(rest, ModelsTag)
  {
    var key := date + ModelsTag + rest;
    forall j | 0 <= j < |date| ensures !MatchAt(key, ModelsTag, j) {
      assert j + |ModelsTag| <= |key| ==> key[j..j + |ModelsTag|][0] == date[j];
    }
    SplitOnAfter(date, ModelsTag, rest);
  }

  /**
   * For a date without '|' and model names without ':', the model list read
   * back from the key is exactly the names joined by '|', and there is none
   * when no names were given.
   */
  lemma ModelsRecovered(date: string, models: Option<seq<string>>)
    requires '|' !in date
    requires models.Some? ==> forall k :: 0 <= k < |models.value| ==> ':' !in models.value[k]
    ensures ModelsOfKey(PredictionKey(date, models)) ==
      (if models.Some? && |models.value| > 0 then Some(Join(models.value, "|")) else None)
  {
    if models.Some? && |models.value| > 0 {
      var joined := Join(models.value, "|");
      MarkerAfterDate(date, joined);
      JoinLacks(models.value, "|", ':');
      NoMatchWithout(joined, ModelsTag, 7);
      SplitOnNone(joined, ModelsTag);
    } else {
      NoMatchWithout(date, ModelsTag, 0);
      SplitOnNone(date, ModelsTag);
    }
  }

  /**
   * The date cleanup reads from any prediction key is the date the key was
   * built from, so an entry expires exactly when its date sorts before the
   * cutoff.
   */
  lemma KeyDate(date: string, models: Option<seq<string>>, cutoff: string)
    requires '|' !in date
    ensures DateOnly(PredictionKey(date, models)) == date
    ensures Expired(PredictionKey(date, models), cutoff) <==> LexLess(date, cutoff)
  {
    if models.Some? && |models.value| > 0 {
      var rest := "models:" + Join(models.value, "|");
      assert PredictionKey(date, models) == date + ['|'] + rest;
      SplitHead(date, '|', rest);
    } else {
      assert Split(date, '|') == [date];
    }
  }

  /**
   * Two prediction sets share a key only when they have the same date and
   * the same model names (no names and an empty list being the same), so a
   * save never overwrites another combination.
   */
  lemma KeyInjective(d1: string, m1: Option<seq<string>>, d2: string, m2: Option<seq<string>>)
    requires '|' !in d1 && '|' !in d2
    requires m1.Some? ==> forall k :: 0 <= k < |m1.value| ==> ':' !in m1.value[k] && '|' !in m1.value[k]
    requires m2.Some? ==> forall k :: 0 <= k < |m2.value| ==> ':' !in m2.value[k] && '|' !in m2.value[k]
    requires PredictionKey(d1, m1) == PredictionKey(d2, m2)
    ensures d1 == d2
    ensures (if m1.Some? then m1.value else []) == (if m2.Some? then m2.value else [])
  {
    KeyDate(d1, m1, "");
    KeyDate(d2, m2, "");
    ModelsRecovered(d1, m1);
    ModelsRecovered(d2, m2);
    if m1.Some? && |m1.value| > 0 {
      SplitJoin(m1.value, '|');
      SplitJoin(m2.value, '|');
    }
  }

  /** A model-performance key "period|stat|model,model,...", parsed. */
  datatype PerfKey = PerfKey(timePeriod: string, stat: string, models: seq<string>)

  /**
   * The parse of a model-performance key: only a key with exactly three
   * '|' fields is listed, its third field split on ','.
   */
  function ParsePerfKey(cacheKey: string): (r: Option<PerfKey>)
    ensures r.Some? <==> |Split(cacheKey, '|')| == 3
    ensures r.Some? ==> |r.value.models| >= 1
    ensures r.Some? ==> cacheKey == r.value.timePeriod + "|" + r.value.stat + "|" + Join(r.value.models, ",")
  {
    var parts := Split(cacheKey, '|');
    if |parts| == 3 then
      JoinSplit(cacheKey, '|');
      JoinSplit(parts[2], ',');
      JoinThree(parts, "|");
      Some(PerfKey(parts[0], parts[1], Split(parts[2], ',')))
    else None
  }

  lemma JoinThree(parts: seq<string>, sep: string)
    requires |parts| == 3
    ensures Join(parts, sep) == parts[0] + sep + parts[1] + sep + parts[2]
  {
    var t := parts[1..];
    assert t[1..] == [parts[2]];
    assert Join(t, sep) == parts[1] + sep + parts[2];
    assert Join(parts, sep) == parts[0] + sep + (parts[1] + sep + parts[2]);
  }

  /** A key written as period, stat and ','-joined names parses back to them. */
  lemma PerfKeyReadsBack(timePeriod: string, stat: string, models: seq<string>)
    requires '|' !in timePeriod && '|' !in stat && |models| >= 1
    requires forall k :: 0 <= k < |models| ==> '|' !in models[k] && ',' !in models[k]
    ensures ParsePerfKey(timePeriod + "|" + stat + "|" + Join(models, ",")) == Some(PerfKey(timePeriod, stat, models))
  {
    var names := Join(models, ",");
    JoinLacks(models, ",", '|');
    FieldsSplit(timePeriod, stat, names);
    SplitJoin(models, ',');
  }

  /** Three fields without '|' joined by '|' split back into them. */
  lemma FieldsSplit(a: string, b: string, c: string)
    requires '|' !in a && '|' !in b && '|' !in c
    ensures Split(a + "|" + b + "|" + c, '|') == [a, b, c]
  {
    var fields := [a, b, c];
    JoinThree(fields, "|");
    SplitJoin(fields, '|');
  }
}
