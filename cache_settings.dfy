/**
 * The cache settings of app/src/contexts/CacheContext.tsx: the two retention
 * settings read back from local storage (lines 44-64), the setters that
 * store them and, for predictions, run the cleanup (lines 171-203), and the
 * statistics refresh and cache clearing (lines 73-90, 156-168, 206-210).
 * React state, the health check, the online/offline listeners and the
 * timers are not part of this model.
 */
module CacheSettings {
  import opened Wrappers
  import opened Text
  import opened JsText
  import opened CacheStore

  const CacheRetentionKey: string := "courtvision-cache-retention"
  const ModelPerfRetentionKey: string := "courtvision-model-perf-retention"

  /** The numbers of days a retention setting may hold. */
  const AllowedDays: seq<int> := [7, 14, 30, 60, 90, 180]

  /** The default of both settings. */
  const DefaultRetention: Retention := Days(30)

  /** A setting the type `CacheRetentionDays` admits. */
  predicate IsRetention(r: Retention) {
    r.Days? ==> r.days in AllowedDays
  }

  /**
   * The setting read back from a stored value: 'all' and 'off' as they are,
   * a value whose `parseInt` is an allowed number of days that number, and
   * anything else (nothing stored included) the default of 30 days.
   */
  function ParseRetention(stored: Option<string>): (r: Retention)
    ensures IsRetention(r)
    ensures r == AllTime <==> stored == Some("all")
    ensures r == Off <==> stored == Some("off")
    ensures r.Days? && r.days != 30 ==> stored.Some? && ParseIntJs(stored.value) == Some(r.days)
    ensures stored.Some? && stored.value != "all" && stored.value != "off" &&
            ParseIntJs(stored.value).Some? && ParseIntJs(stored.value).value in AllowedDays ==>
            r == Days(ParseIntJs(stored.value).value)
    ensures stored.None? ==> r == DefaultRetention
    ensures stored.Some? && stored.value != "all" && stored.value != "off" &&
            !(ParseIntJs(stored.value).Some? && ParseIntJs(stored.value).value in AllowedDays) ==>
            r == DefaultRetention
  {
    if stored == Some("all") then AllTime
    else if stored == Some("off") then Off
    else
      var text := if stored.Some? then stored.value else "";
      var parsed := ParseIntJs(text);
      if parsed.Some? && parsed.value in AllowedDays then Days(parsed.value) else DefaultRetention
  }

  /** `String(days)`: the stored text of a setting. */
  function RetentionText(r: Retention): string {
    match r
    case AllTime => "all"
    case Off => "off"
    case Days(n) => IntToString(n)
  }

  /** Storing a setting and reading it back gives the same setting. */
  lemma RetentionRoundTrip(r: Retention)
    requires IsRetention(r)
    ensures ParseRetention(Some(RetentionText(r))) == r
  {
    if r.Days? {
      var t := NatToString(r.days);
      assert RetentionText(r) == t;
      assert t != "all" && t != "off" by {
        assert IsDigit(t[0]);
      }
      ParseIntJsOfNat(r.days);
    }
  }

  /** A stored value without any digit that is neither 'all' nor 'off' reads as the default. */
  lemma NonNumericIsDefault(stored: Option<string>)
    requires stored.None? || (stored.value != "all" && stored.value != "off" &&
                              forall k :: 0 <= k < |stored.value| ==> !IsDigit(stored.value[k]))
    ensures ParseRetention(stored) == DefaultRetention
  {
  }

  /** The value stored under a key of local storage, if any. */
  function Lookup(storage: map<string, string>, key: string): Option<string> {
    if key in storage then Some(storage[key]) else None
  }

  class CacheContext {
    /** The prediction retention setting. */
    var retentionDays: Retention
    /** The model-performance retention setting. */
    var modelPerfRetentionDays: Retention
    /** The browser's local storage. */
    var storage: map<string, string>
    /** The last storage usage read: total bytes and number of entries. */
    var storageUsage: (nat, nat)
    /** The last entry counts read: predictions and model-performance results. */
    var cacheCounts: (nat, nat)
    /** The cache the settings apply to. */
    const cache: CacheManager

    /** The settings as first read from local storage. */
    constructor (storage: map<string, string>, cache: CacheManager)
      ensures retentionDays == ParseRetention(Lookup(storage, CacheRetentionKey))
      ensures modelPerfRetentionDays == ParseRetention(Lookup(storage, ModelPerfRetentionKey))
      ensures this.storage == storage && this.cache == cache
      ensures storageUsage == (0, 0) && cacheCounts == (0, 0)
    {
      retentionDays := ParseRetention(Lookup(storage, CacheRetentionKey));
      modelPerfRetentionDays := ParseRetention(Lookup(storage, ModelPerfRetentionKey));
      this.storage := storage;
      storageUsage := (0, 0);
      cacheCounts := (0, 0);
      this.cache := cache;
    }

    /** `refreshStats`: the usage and the counts read from the cache. */
    method RefreshStats()
      requires cache.Valid()
      modifies this
      ensures storageUsage == (Sum(PredictionSizes(cache.predictions)) + Sum(PerformanceSizes(cache.modelPerformance)),
                               |cache.predictions.Keys| + |cache.modelPerformance.Keys|)
      ensures cacheCounts == (|cache.predictions.Keys|, |cache.modelPerformance.Keys|)
      ensures retentionDays == old(retentionDays) && modelPerfRetentionDays == old(modelPerfRetentionDays)
      ensures storage == old(storage)
    {
      var totalBytes, itemCount := cache.GetStorageUsage();
      storageUsage := (totalBytes, itemCount);
      var predictionCount, performanceCount := cache.GetCacheCounts();
      cacheCounts := (predictionCount, performanceCount);
    }

    /** The start-up effect: the cleanup with the setting read, then the statistics. */
    method Initialize(cutoff: string)
      requires cache.Valid()
      modifies this, cache
      ensures cache.Valid()
      ensures cache.predictions == Kept(old(cache.predictions), retentionDays, cutoff)
      ensures cache.modelPerformance == old(cache.modelPerformance)
      ensures retentionDays == old(retentionDays) && modelPerfRetentionDays == old(modelPerfRetentionDays)
      ensures storage == old(storage)
      ensures storageUsage == (Sum(PredictionSizes(cache.predictions)) + Sum(PerformanceSizes(cache.modelPerformance)),
                               |cache.predictions.Keys| + |cache.modelPerformance.Keys|)
      ensures cacheCounts == (|cache.predictions.Keys|, |cache.modelPerformance.Keys|)
    {
      var _ := cache.Cleanup(retentionDays, cutoff);
      RefreshStats();
    }

    /**
     * `setRetentionDays`: the setting is taken and stored, and the cleanup
     * runs with it; reading the stored value back gives the setting.
     */
    method SetRetentionDays(days: Retention, cutoff: string)
      requires IsRetention(days) && cache.Valid()
      modifies this, cache
      ensures cache.Valid()
      ensures retentionDays == days && modelPerfRetentionDays == old(modelPerfRetentionDays)
      ensures storage == old(storage)[CacheRetentionKey := RetentionText(days)]
      ensures ParseRetention(Lookup(storage, CacheRetentionKey)) == days
      ensures cache.predictions == Kept(old(cache.predictions), days, cutoff)
      ensures cache.modelPerformance == old(cache.modelPerformance)
      ensures storageUsage == (Sum(PredictionSizes(cache.predictions)) + Sum(PerformanceSizes(cache.modelPerformance)),
                               |cache.predictions.Keys| + |cache.modelPerformance.Keys|)
      ensures cacheCounts == (|cache.predictions.Keys|, |cache.modelPerformance.Keys|)
    {
      retentionDays := days;
      storage := storage[CacheRetentionKey := RetentionText(days)];
      RetentionRoundTrip(days);
      var _ := cache.Cleanup(days, cutoff);
      RefreshStats();
    }

    /**
     * `setModelPerfRetentionDays`: the setting is taken and stored; no
     * cleanup runs, so neither store changes.
     */
    method SetModelPerfRetentionDays(days: Retention)
      requires IsRetention(days) && cache.Valid()
      modifies this
      ensures modelPerfRetentionDays == days && retentionDays == old(retentionDays)
      ensures storage == old(storage)[ModelPerfRetentionKey := RetentionText(days)]
      ensures ParseRetention(Lookup(storage, ModelPerfRetentionKey)) == days
      ensures cache.predictions == old(cache.predictions) && cache.modelPerformance == old(cache.modelPerformance)
      ensures storageUsage == (Sum(PredictionSizes(cache.predictions)) + Sum(PerformanceSizes(cache.modelPerformance)),
                               |cache.predictions.Keys| + |cache.modelPerformance.Keys|)
      ensures cacheCounts == (|cache.predictions.Keys|, |cache.modelPerformance.Keys|)
    {
      modelPerfRetentionDays := days;
      storage := storage[ModelPerfRetentionKey := RetentionText(days)];
      RetentionRoundTrip(days);
      RefreshStats();
    }

    /** `clearCache`: the cache is emptied and the statistics read again. */
    method ClearCache() returns (wasEmpty: bool, deletedCount: nat)
      requires cache.Valid()
      modifies this, cache
      ensures cache.Valid()
      ensures deletedCount == |old(cache.predictions).Keys| + |old(cache.modelPerformance).Keys|
      ensures wasEmpty <==> deletedCount == 0
      ensures cache.predictions == map[] && cache.modelPerformance == map[] && cache.metadata == map[]
      ensures retentionDays == old(retentionDays) && modelPerfRetentionDays == old(modelPerfRetentionDays)
      ensures storage == old(storage)
      ensures storageUsage == (0, 0) && cacheCounts == (0, 0)
    {
      wasEmpty, deletedCount := cache.ClearAll();
      RefreshStats();
    }
  }
}
