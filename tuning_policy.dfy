/**
 * The selective tuning policy (data/models/selective_tuning_config_used.py):
 * for each model family and prediction target, whether the tuned
 * hyperparameters are used or the defaults.
 */
module TuningPolicy {

  /** The seven target names every family lists. */
  const Targets: seq<string> :=
    ["blocks", "steals", "points", "assists", "rebounds", "turnovers", "three_pointers_made"]

  function AllTargets(v: bool): map<string, bool> {
    map["blocks" := v, "steals" := v, "points" := v, "assists" := v,
        "rebounds" := v, "turnovers" := v, "three_pointers_made" := v]
  }

  /** `SELECTIVE_TUNING_CONFIG`. */
  function Config(): map<string, map<string, bool>> {
    map[
      "xgboost" := AllTargets(false)["blocks" := true]["steals" := true],
      "lightgbm" := AllTargets(false),
      "catboost" := AllTargets(true),
      "random_forest" := AllTargets(false)]
  }

  /** `should_use_tuned_params`. */
  function ShouldUseTunedParams(modelType: string, target: string, useSelective: bool): (r: bool)
    ensures r <==>
      || !useSelective
      || (modelType == "xgboost" && (target == "blocks" || target == "steals"))
      || (modelType == "catboost" && target in Targets)
  {
    if !useSelective then true
    else if modelType !in Config() then false
    else if target in Config()[modelType] then Config()[modelType][target]
    else false
  }

  /** All four families list the same seven targets. */
  lemma SameTargetKeys(family: string, target: string)
    requires family in Config()
    ensures target in Config()[family] <==> target in Targets
  {
  }
}
