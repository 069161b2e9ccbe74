/**
 * The browser cache manager of app/src/lib/cache.ts: an IndexedDB database
 * with a `predictions` store keyed by the prediction key, a
 * `model_performance` store keyed by its cache key, and a `metadata` store.
 * Each store is a map field of `CacheManager`; opening the database, the
 * logging and the `try`/`catch` around each database call are not part of
 * this model.
 */
module CacheStore {
  import opened Wrappers
  import opened Text
  import opened CacheKeys
  import Sets

  /** A stored prediction set: its key, its data (as the JSON text), the time it was stored and its size in bytes. */
  datatype PredictionEntry = PredictionEntry(date: string, data: string, cachedAt: int, size: nat)

  /** A stored model-performance result: its key, its data, the time it was stored and its size in bytes. */
  datatype PerformanceEntry = PerformanceEntry(cacheKey: string, data: string, cachedAt: int, size: nat)

  /** A retention setting: a number of days, 'all' or 'off'. */
  datatype Retention = Days(days: int) | AllTime | Off

  /** An entry of the prediction listing. */
  datatype CacheEntry = CacheEntry(date: string, size: nat, cachedAt: int, models: Option<string>)

  /** An entry of the model-performance listing. */
  datatype PerformanceListing = PerformanceListing(cacheKey: string, timePeriod: string, stat: string,
                                                   models: seq<string>, size: nat, cachedAt: int)

  /** The listing entry of a stored prediction set, its models read from the key. */
  function ListedEntry(e: PredictionEntry): CacheEntry {
    CacheEntry(e.date, e.size, e.cachedAt, ModelsOfKey(e.date))
  }

  /** The listing entry of a stored result whose key parses. */
  function ListedPerformance(e: PerformanceEntry, k: PerfKey): PerformanceListing {
    PerformanceListing(e.cacheKey, k.timePeriod, k.stat, k.models, e.size, e.cachedAt)
  }

  /** The sum of the values of a map. */
  ghost function Sum(m: map<string, nat>): nat
    decreases m.Keys
  {
    if m == map[] then 0
    else var k :| k in m; m[k] + Sum(m - {k})
  }

  /** The sum does not depend on which key is taken out first. */
  lemma {:induction false} SumRemove(m: map<string, nat>, x: string)
    requires x in m
    ensures Sum(m) == m[x] + Sum(m - {x})
    decreases m.Keys
  {
    var y :| y in m && Sum(m) == m[y] + Sum(m - {y});
    if y != x {
      SumRemove(m - {y}, x);
      SumRemove(m - {x}, y);
      assert m - {y} - {x} == m - {x} - {y};
    }
  }

  /** The sizes of the stored prediction sets. */
  function PredictionSizes(m: map<string, PredictionEntry>): (sizes: map<string, nat>)
    ensures sizes.Keys == m.Keys
  {
    map k | k in m :: m[k].size
  }

  /** The sizes of the stored model-performance results. */
  function PerformanceSizes(m: map<string, PerformanceEntry>): (sizes: map<string, nat>)
    ensures sizes.Keys == m.Keys
  {
    map k | k in m :: m[k].size
  }

  /** The prediction sets a cleanup with the given setting and cutoff date keeps. */
  function Kept(m: map<string, PredictionEntry>, retention: Retention, cutoff: string): map<string, PredictionEntry> {
    if retention.Days? then map k | k in m && !Expired(k, cutoff) :: m[k] else m
  }

  /** The keys among `keys` whose date sorts before the cutoff. */
  function ExpiredKeys(keys: set<string>, cutoff: string): set<string> {
    set k | k in keys && Expired(k, cutoff)
  }

  /** Looking at one more key adds it to the expired keys exactly when it is expired. */
  lemma ExpiredKeysGrow(keys: set<string>, key: string, cutoff: string)
    ensures ExpiredKeys(keys + {key}, cutoff) == ExpiredKeys(keys, cutoff) + (if Expired(key, cutoff) then {key} else {})
  {
  }

  /** One key of the cleanup loop looked at: the expired keys seen, their number and the entries left. */
  lemma DeleteStep(all: map<string, PredictionEntry>, unseen: set<string>, key: string, deleted: set<string>, cutoff: string)
    requires key in unseen && unseen <= all.Keys && deleted == ExpiredKeys(all.Keys - unseen, cutoff)
    ensures var now := if Expired(key, cutoff) then deleted + {key} else deleted;
      now == ExpiredKeys(all.Keys - (unseen - {key}), cutoff) &&
      |now| == |deleted| + (if Expired(key, cutoff) then 1 else 0) &&
      all - now == (all - deleted) - (if Expired(key, cutoff) then {key} else {})
  {
    var now := if Expired(key, cutoff) then deleted + {key} else deleted;
    assert now == ExpiredKeys(all.Keys - (unseen - {key}), cutoff) by {
      assert all.Keys - (unseen - {key}) == (all.Keys - unseen) + {key};
      ExpiredKeysGrow(all.Keys - unseen, key, cutoff);
    }
    if Expired(key, cutoff) {
      assert key !in deleted;
      Sets.GrowByOne(deleted, key);
      Sets.MinusOneMore(all, deleted, key);
    }
  }

  /** Keeping the unexpired entries is taking the expired ones out, one fewer entry for each. */
  lemma KeptByDays(all: map<string, PredictionEntry>, cutoff: string)
    ensures Kept(all, Days(0), cutoff) == all - ExpiredKeys(all.Keys, cutoff)
    ensures |(all - ExpiredKeys(all.Keys, cutoff)).Keys| == |all.Keys| - |ExpiredKeys(all.Keys, cutoff)|
  {
    var deleted := ExpiredKeys(all.Keys, cutoff);
    assert Kept(all, Days(0), cutoff).Keys == (all - deleted).Keys;
    Sets.MinusSize(all, deleted);
  }

  /** Storing an entry puts its size in place of the size the key had before, if any. */
  lemma SavedSizeCounted(m: map<string, PredictionEntry>, key: string, e: PredictionEntry)
    ensures Sum(PredictionSizes(m[key := e])) == Sum(PredictionSizes(m - {key})) + e.size
    ensures key in m ==> Sum(PredictionSizes(m)) == Sum(PredictionSizes(m - {key})) + m[key].size
  {
    SumRemove(PredictionSizes(m[key := e]), key);
    assert PredictionSizes(m[key := e]) - {key} == PredictionSizes(m - {key});
    if key in m {
      SumRemove(PredictionSizes(m), key);
      assert PredictionSizes(m) - {key} == PredictionSizes(m - {key});
    }
  }

  /**
   * A prediction set saved for a date (without '|') survives a cleanup with
   * a number of days exactly when its date does not sort before the cutoff,
   * whatever its model list.
   */
  lemma CleanupKeepsRecent(m: map<string, PredictionEntry>, date: string, models: Option<seq<string>>,
                           days: int, cutoff: string)
    requires '|' !in date && PredictionKey(date, models) in m
    ensures PredictionKey(date, models) in Kept(m, Days(days), cutoff) <==> !LexLess(date, cutoff)
    ensures PredictionKey(date, models) in Kept(m, AllTime, cutoff) && PredictionKey(date, models) in Kept(m, Off, cutoff)
  {
    KeyDate(date, models, cutoff);
  }

  /**
   * The sum of the sizes in a map and the number of its entries, added up
   * one entry at a time as `forEach` does.
   */
  method SumSizes(sizes: map<string, nat>) returns (total: nat, count: nat)
    ensures total == Sum(sizes) && count == |sizes.Keys|
  {
    total, count := 0, 0;
    var rest := sizes;
    while rest != map[]
      invariant rest.Keys <= sizes.Keys
      invariant total + Sum(rest) == Sum(sizes)
      invariant count + |rest.Keys| == |sizes.Keys|
      decreases rest.Keys
    {
      var k :| k in rest;
      SumRemove(rest, k);
      total := total + rest[k];
      count := count + 1;
      assert (rest - {k}).Keys == rest.Keys - {k};
      rest := rest - {k};
    }
  }

  class CacheManager {
    /** The `predictions` store. */
    var predictions: map<string, PredictionEntry>
    /** The `model_performance` store. */
    var modelPerformance: map<string, PerformanceEntry>
    /** The `metadata` store. */
    var metadata: map<string, string>

    /** Every entry is stored under its own key, as the stores' key paths make it. */
    predicate Valid()
      reads this
    {
      (forall k :: k in predictions ==> predictions[k].date == k) &&
      (forall k :: k in modelPerformance ==> modelPerformance[k].cacheKey == k)
    }

    /** A freshly opened, empty database. */
    constructor ()
      ensures Valid()
      ensures predictions == map[] && modelPerformance == map[] && metadata == map[]
    {
      predictions := map[];
      modelPerformance := map[];
      metadata := map[];
    }

    /** `getPredictions`: the data stored under the key of the date and the model list, if any. */
    function GetPredictions(date: string, models: Option<seq<string>>): (r: Option<string>)
      reads this
      ensures r.Some? <==> PredictionKey(date, models) in predictions
      ensures r.Some? ==> r.value == predictions[PredictionKey(date, models)].data
    {
      var key := PredictionKey(date, models);
      if key in predictions then Some(predictions[key].data) else None
    }

    /**
     * `savePredictions`: the entry is put under the same key `getPredictions`
     * derives, so reading it back gives the data; every other key keeps what
     * it had.
     */
    method SavePredictions(date: string, data: string, models: Option<seq<string>>, now: int, size: nat)
      requires Valid()
      modifies this
      ensures Valid()
      ensures predictions == old(predictions)[PredictionKey(date, models) := PredictionEntry(PredictionKey(date, models), data, now, size)]
      ensures modelPerformance == old(modelPerformance) && metadata == old(metadata)
      ensures GetPredictions(date, models) == Some(data)
      ensures forall d, m :: PredictionKey(d, m) != PredictionKey(date, models) ==>
        GetPredictions(d, m) == old(GetPredictions(d, m))
    {
      var key := PredictionKey(date, models);
      predictions := predictions[key := PredictionEntry(key, data, now, size)];
    }

    /** `getModelPerformance`: the data stored under the key, if any. */
    function GetModelPerformance(cacheKey: string): (r: Option<string>)
      reads this
      ensures r.Some? <==> cacheKey in modelPerformance
      ensures r.Some? ==> r.value == modelPerformance[cacheKey].data
    {
      if cacheKey in modelPerformance then Some(modelPerformance[cacheKey].data) else None
    }

    /** `saveModelPerformance`: the entry is put under its key. */
    method SaveModelPerformance(cacheKey: string, data: string, now: int, size: nat)
      requires Valid()
      modifies this
      ensures Valid()
      ensures modelPerformance == old(modelPerformance)[cacheKey := PerformanceEntry(cacheKey, data, now, size)]
      ensures predictions == old(predictions) && metadata == old(metadata)
      ensures GetModelPerformance(cacheKey) == Some(data)
    {
      modelPerformance := modelPerformance[cacheKey := PerformanceEntry(cacheKey, data, now, size)];
    }

    /** `getStorageUsage`: the sizes of both stores added up, and the number of entries in both. */
    method GetStorageUsage() returns (totalBytes: nat, itemCount: nat)
      ensures totalBytes == Sum(PredictionSizes(predictions)) + Sum(PerformanceSizes(modelPerformance))
      ensures itemCount == |predictions.Keys| + |modelPerformance.Keys|
    {
      var predictionBytes, predictionCount := SumSizes(PredictionSizes(predictions));
      var performanceBytes, performanceCount := SumSizes(PerformanceSizes(modelPerformance));
      totalBytes := predictionBytes + performanceBytes;
      itemCount := predictionCount + performanceCount;
    }

    /**
     * `cleanup`: with 'all' nothing is deleted; with a number of days every
     * prediction set whose date sorts before the cutoff date (that many days
     * before today) is deleted, and only those; the model-performance store
     * is never touched. With 'off' the cutoff date is invalid, its ISO
     * rendering throws, and the error is caught before anything is deleted.
     */
    method Cleanup(retention: Retention, cutoff: string) returns (deletedCount: nat)
      requires Valid()
      modifies this
      ensures Valid()
      ensures predictions == Kept(old(predictions), retention, cutoff)
      ensures modelPerformance == old(modelPerformance) && metadata == old(metadata)
      ensures deletedCount == |old(predictions).Keys| - |predictions.Keys|
    {
      deletedCount := 0;
      if !retention.Days? {
        return;
      }
      ghost var all := predictions;
      deletedCount := DeleteBefore(cutoff);
      KeptByDays(all, cutoff);
    }

    /** `db.delete('predictions', key)`: the entry under the key, if any, is gone. */
    method DeletePrediction(key: string)
      modifies this
      ensures predictions == old(predictions) - {key}
      ensures modelPerformance == old(modelPerformance) && metadata == old(metadata)
    {
      predictions := predictions - {key};
    }

    /** The loop of `cleanup`: every prediction set whose date sorts before the cutoff is deleted and counted. */
    method DeleteBefore(cutoff: string) returns (deletedCount: nat)
      requires Valid()
      modifies this
      ensures Valid()
      ensures predictions == old(predictions) - ExpiredKeys(old(predictions).Keys, cutoff)
      ensures deletedCount == |ExpiredKeys(old(predictions).Keys, cutoff)|
      ensures modelPerformance == old(modelPerformance) && metadata == old(metadata)
    {
      deletedCount := 0;
      var all := predictions;
      var unseen := all.Keys;
      ghost var deleted: set<string> := {};
      while unseen != {}
        invariant unseen <= all.Keys
        invariant deleted == ExpiredKeys(all.Keys - unseen, cutoff)
        invariant predictions == all - deleted
        invariant deletedCount == |deleted|
        invariant modelPerformance == old(modelPerformance) && metadata == old(metadata)
        decreases unseen
      {
        var key :| key in unseen;
        var pred := all[key];
        assert pred.date == key;
        DeleteStep(all, unseen, key, deleted, cutoff);
        if Expired(pred.date, cutoff) {
          DeletePrediction(pred.date);
          deleted := deleted + {key};
          deletedCount := deletedCount + 1;
        }
        unseen := unseen - {key};
      }
    }

    /**
     * `clearAll`: the number of entries the two stores held, whether that is
     * none, and all three stores emptied.
     */
    method ClearAll() returns (wasEmpty: bool, deletedCount: nat)
      requires Valid()
      modifies this
      ensures Valid()
      ensures deletedCount == |old(predictions).Keys| + |old(modelPerformance).Keys|
      ensures wasEmpty <==> deletedCount == 0
      ensures predictions == map[] && modelPerformance == map[] && metadata == map[]
    {
      deletedCount := |predictions.Keys| + |modelPerformance.Keys|;
      wasEmpty := deletedCount == 0;
      predictions := map[];
      modelPerformance := map[];
      metadata := map[];
    }

    /** `getCacheCounts`: the number of entries of each store. */
    method GetCacheCounts() returns (predictionCount: nat, performanceCount: nat)
      ensures predictionCount == |predictions.Keys| && performanceCount == |modelPerformance.Keys|
    {
      predictionCount := |predictions.Keys|;
      performanceCount := |modelPerformance.Keys|;
    }

    /**
     * `getAllCacheEntries`: one entry per stored prediction set, each with
     * its key, size and time and the models read from its key.
     */
    method GetAllCacheEntries() returns (entries: seq<CacheEntry>)
      requires Valid()
      ensures forall i :: 0 <= i < |entries| ==>
        entries[i].date in predictions && entries[i] == ListedEntry(predictions[entries[i].date])
      ensures forall k :: k in predictions ==> ListedEntry(predictions[k]) in entries
      ensures forall i, j :: 0 <= i < j < |entries| ==> entries[i].date != entries[j].date
    {
      entries := [];
      var unseen := predictions.Keys;
      while unseen != {}
        invariant unseen <= predictions.Keys
        invariant forall i :: 0 <= i < |entries| ==>
          entries[i].date in predictions && entries[i].date !in unseen &&
          entries[i] == ListedEntry(predictions[entries[i].date])
        invariant forall k :: k in predictions && k !in unseen ==> ListedEntry(predictions[k]) in entries
        invariant forall i, j :: 0 <= i < j < |entries| ==> entries[i].date != entries[j].date
        decreases unseen
      {
        var key :| key in unseen;
        var p := predictions[key];
        entries := entries + [ListedEntry(p)];
        unseen := unseen - {key};
      }
    }

    /**
     * `getAllModelPerformanceEntries`: one entry per stored result whose key
     * has exactly three '|' fields, with the period, the stat and the model
     * names parsed from the key; other keys are not listed.
     */
    method GetAllModelPerformanceEntries() returns (entries: seq<PerformanceListing>)
      requires Valid()
      ensures forall i :: 0 <= i < |entries| ==>
        entries[i].cacheKey in modelPerformance && ParsePerfKey(entries[i].cacheKey).Some? &&
        entries[i] == ListedPerformance(modelPerformance[entries[i].cacheKey], ParsePerfKey(entries[i].cacheKey).value)
      ensures forall k :: k in modelPerformance && ParsePerfKey(k).Some? ==>
        ListedPerformance(modelPerformance[k], ParsePerfKey(k).value) in entries
      ensures forall i, j :: 0 <= i < j < |entries| ==> entries[i].cacheKey != entries[j].cacheKey
    {
      var store := modelPerformance;
      assert forall k :: k in store ==> store[k].cacheKey == k;
      entries := [];
      var unseen := store.Keys;
      while unseen != {}
        invariant unseen <= store.Keys
        invariant forall i :: 0 <= i < |entries| ==>
          entries[i].cacheKey in store && entries[i].cacheKey !in unseen &&
          ParsePerfKey(entries[i].cacheKey).Some? &&
          entries[i] == ListedPerformance(store[entries[i].cacheKey], ParsePerfKey(entries[i].cacheKey).value)
        invariant forall k :: k in store && k !in unseen && ParsePerfKey(k).Some? ==>
          ListedPerformance(store[k], ParsePerfKey(k).value) in entries
        invariant forall i, j :: 0 <= i < j < |entries| ==> entries[i].cacheKey != entries[j].cacheKey
        decreases unseen
      {
        var key :| key in unseen;
        var mp := store[key];
        var parsed := ParsePerfKey(mp.cacheKey);
        if parsed.Some? {
          entries := entries + [ListedPerformance(mp, parsed.value)];
        }
        unseen := unseen - {key};
      }
    }

    /** `deleteEntries`: exactly the given keys leave the prediction store; a missing key is no error. */
    method DeleteEntries(keys: seq<string>)
      requires Valid()
      modifies this
      ensures Valid()
      ensures predictions == map k | k in old(predictions) && k !in keys :: old(predictions)[k]
      ensures modelPerformance == old(modelPerformance) && metadata == old(metadata)
    {
      for i := 0 to |keys|
        invariant predictions == map k | k in old(predictions) && k !in keys[..i] :: old(predictions)[k]
        invariant modelPerformance == old(modelPerformance) && metadata == old(metadata)
      {
        assert forall k :: k in keys[..i + 1] <==> k in keys[..i] || k == keys[i];
        predictions := predictions - {keys[i]};
      }
      assert keys[..|keys|] == keys;
    }

    /** `deleteModelPerformanceEntries`: exactly the given keys leave the model-performance store. */
    method DeleteModelPerformanceEntries(cacheKeys: seq<string>)
      requires Valid()
      modifies this
      ensures Valid()
      ensures modelPerformance == map k | k in old(modelPerformance) && k !in cacheKeys :: old(modelPerformance)[k]
      ensures predictions == old(predictions) && metadata == old(metadata)
    {
      for i := 0 to |cacheKeys|
        invariant modelPerformance == map k | k in old(modelPerformance) && k !in cacheKeys[..i] :: old(modelPerformance)[k]
        invariant predictions == old(predictions) && metadata == old(metadata)
      {
        assert forall k :: k in cacheKeys[..i + 1] <==> k in cacheKeys[..i] || k == cacheKeys[i];
        modelPerformance := modelPerformance - {cacheKeys[i]};
      }
      assert cacheKeys[..|cacheKeys|] == cacheKeys;
    }
  }
}
