# CourtVision in Dafny

CourtVision predicts NBA players' points, rebounds and assists for upcoming
games. Python jobs collect players, games, box scores and schedules into a
PostgreSQL database. Other jobs derive training features, train and tune
XGBoost models per stat, predict, evaluate and adjust the predictions. A
React web app shows the predictions and caches them in the browser.

This project models the logic of that pipeline and app in Dafny, one module
per source file, and proves what each step promises. Database queries and
API responses are inputs. The rows a step writes are its returned value, or
the new state of the class that holds the store.

- **Values and text.** `Wrappers` (optional values), `Text` and `JsText`
  (Python and JavaScript string operations), `Numeric` (Python's `round`,
  sums and means), `Sets`, `WeightedSums`.
- **Collection.**
  - `PyValues`: the cell converters `safe_int`, `safe_float`, `safe_str`
    and `parse_minutes`.
  - `PlayerInfo`: the player record built from `CommonPlayerInfo`.
  - `CollectPlayers`, `CollectGames`, `BoxScore`, `CollectPlayerStats`,
    `CollectBatch`: the players, games and box-score collectors.
  - `EspnAbbreviations`, `CollectScheduleHtml` with `NbaGameIds`,
    `CollectTodaysSchedule`, `CollectScheduleFallback`: the schedule
    collectors.
  - `Recovery`: marks injured players as recovered.
  - `TeammateDependency`: how much teammates' averages change without a
    star.
- **Features and models.**
  - `BuildFeatures`: the batch training features.
  - `OnlineFeatures`: the features of one upcoming game.
  - `Training`, `Tuning`, `TuningPolicy`: training, cross-validation and
    the choice between tuned and default parameters.
- **Predictions.** `Confidence`, `EnsemblePredictor`, `Ensemble`,
  `TeammateBoost`, `Evaluation`.
- **Database tooling.** `DatabaseStructure`: the column rendering of the
  structure report.
- **Web app.**
  - `CacheKeys` and `CacheStore`: the IndexedDB cache, a class with one map
    field per store.
  - `CacheSettings`: the retention settings.
  - `CacheModal`: the cache-management dialog.
  - `LocalStorageCleanup`: the notification-state cleanup.
  - `NewPredictions`: the new-predictions notifier.

Where the code's own comments and documentation disagree with the code,
the model follows the code. There is one exception:
`LocalStorageCleanup.LocalStorage.CleanupLocalStorage` follows the rule
that the comment at app/src/lib/localStorageCleanup.ts:3-7 promises. The
rule as written is modelled beside it, under "## Findings". The other
cases:

- The `games_missed` count of src/data_collection/mark_recovered_players.py
  includes the report date itself.
- The playoff-experience flag of build_features.py compares the game type
  with 'playoff', but games are stored with 'playoffs'. The flag is therefore
  never set (`BuildFeatures.StoredPlayoffFeaturesVanish`).
- The cumulative count of games without the star includes the current row.
- The decay weights of the online features give the oldest game of a window
  the most weight; the batch builder gives the newest the most.
- src/data_collection/collect_players.py stores a `TEAM_ID` of "0" as
  team 0, while `add_missing_player` stores no team for it
  (`CollectPlayers.TeamRulesDiffer`).

## Model

| member | source | states |
|---|---|---|
| Text.SplitPartsFree | app/src/lib/localStorageCleanup.ts:21 | no piece of a one-character split holds the separator |
| Text.JoinSplit | app/src/lib/localStorageCleanup.ts:21 | joining the pieces of a split with the separator gives back the original key |
| Text.SplitJoin | src/data_collection/collect_players.py:66 | splitting a join gives back the pieces when none of them holds the separator |
| Text.SplitLast | app/src/lib/localStorageCleanup.ts:21 | the last piece of a split is what follows the last separator |
| Text.UpperIdempotent | src/database/analyze_database_structure.py:240 | upper-casing twice is upper-casing once |
| Text.NatToStringValue | app/src/contexts/CacheContext.tsx:48 | the printed numeral of a natural number reads back as that number |
| Text.ZeroPadValue | src/data_collection/collect_schedule_html.py:104 | zero padding leaves the value the digits denote unchanged |
| JsText.ParseIntJsOfNat | app/src/contexts/CacheContext.tsx:48 | `parseInt(String(n), 10)` is n for every natural number n |
| Numeric.RoundNonNegative | src/data_collection/collect_batch.py:39 | rounding to a number of digits never makes a non-negative value negative |
| Numeric.RoundIdempotent | src/predictions/predict_games.py:574 | rounding twice to the same number of digits is rounding once |
| Numeric.MeanBetween | src/predictions/evaluate_predictions.py:128 | a mean lies between the smallest and the largest value averaged |
| Numeric.ConvexCombination | src/predictions/ensemble_utils.py:64 | non-negative weights summing to 1 keep a weighted sum within the values' bounds |
| CacheKeys.JoinLacks | app/src/lib/cache.ts:89 | a character in neither the names nor the separator is not in their join |
| CacheKeys.MarkerAfterDate | app/src/lib/cache.ts:302 | a date without '\|' ends right where the first "\|models:" marker starts |
| CacheKeys.ModelsRecovered | app/src/lib/cache.ts:302-303 | for a date without '\|' and model names without ':', the model list read back from a prediction key is exactly the names joined by '\|', and absent when no names (or an empty list) were given |
| CacheKeys.KeyDate | app/src/lib/cache.ts:224-225 | the date the cleanup reads from any prediction key is the date it was built from, so an entry expires exactly when its date sorts before the cutoff |
| CacheKeys.KeyInjective | app/src/lib/cache.ts:88-90 | two prediction sets share a key only with the same date and the same model names (no names and an empty list being the same) |
| CacheKeys.ParsePerfKey | app/src/lib/cache.ts:343-353 | a model-performance key is listed exactly when it has three '\|' fields; it then has at least one model name and is the period, the stat and the ','-joined names |
| CacheKeys.JoinThree | app/src/lib/cache.ts:343 | three fields joined by a separator are the fields with the separator between them |
| CacheKeys.PerfKeyReadsBack | app/src/lib/cache.ts:343-350 | a key written as "period\|stat\|model,model" parses back to that period, stat and model list |
| CacheKeys.FieldsSplit | app/src/lib/cache.ts:344 | three fields without '\|' joined by '\|' split back into them |
| CacheStore.SumRemove | app/src/lib/cache.ts:176-185 | a sum of sizes does not depend on the order the entries are taken in |
| CacheStore.PredictionSizes | app/src/lib/cache.ts:176-179 | one size per stored prediction set, under the set's key |
| CacheStore.PerformanceSizes | app/src/lib/cache.ts:182-185 | one size per stored model-performance result, under the result's key |
| CacheStore.ExpiredKeysGrow | app/src/lib/cache.ts:222-229 | one more key looked at joins the expired keys exactly when its date sorts before the cutoff |
| CacheStore.DeleteStep | app/src/lib/cache.ts:222-229 | one prediction of the cleanup loop: deleted and counted exactly when expired |
| CacheStore.KeptByDays | app/src/lib/cache.ts:221-229 | the entries a cleanup keeps are the stored ones minus the expired ones, one fewer entry for each expired one |
| CacheStore.SavedSizeCounted | app/src/lib/cache.ts:116-123 | saving an entry replaces the size its key had, if any, by the new size in the total |
| CacheStore.CleanupKeepsRecent | app/src/lib/cache.ts:206-229 | a prediction set saved for a date survives a cleanup by days exactly when its date does not sort before the cutoff, whatever its model list; 'all' and 'off' keep it |
| CacheStore.SumSizes | app/src/lib/cache.ts:172-185 | the `forEach` totals: the sum of the sizes and the number of entries |
| CacheStore.CacheManager.constructor | app/src/lib/cache.ts:40-54 | a freshly opened database with three empty stores |
| CacheStore.CacheManager.GetPredictions | app/src/lib/cache.ts:84-104 | the data stored under the key of the date and model list, and nothing when the key is not stored |
| CacheStore.CacheManager.SavePredictions | app/src/lib/cache.ts:107-129 | the entry is put under the key `GetPredictions` derives, which then reads back the data; every other key reads as before |
| CacheStore.CacheManager.GetModelPerformance | app/src/lib/cache.ts:131-146 | the data stored under the key, nothing when it is not stored |
| CacheStore.CacheManager.SaveModelPerformance | app/src/lib/cache.ts:148-166 | the entry is put under its key, which then reads back the data; the other stores are unchanged |
| CacheStore.CacheManager.GetStorageUsage | app/src/lib/cache.ts:169-194 | the total of the sizes of both stores and the number of entries in both |
| CacheStore.CacheManager.Cleanup | app/src/lib/cache.ts:206-237 | 'all' and 'off' delete nothing; a number of days deletes exactly the prediction sets whose date sorts before the cutoff; the count is the number deleted; the other stores are untouched |
| CacheStore.CacheManager.DeletePrediction | app/src/lib/cache.ts:226 | the entry under the key, if any, is gone and nothing else changes |
| CacheStore.CacheManager.DeleteBefore | app/src/lib/cache.ts:218-229 | the loop of `cleanup`: the store loses exactly the expired keys and the count is their number |
| CacheStore.CacheManager.ClearAll | app/src/lib/cache.ts:240-264 | the count is the number of entries the two stores held, `wasEmpty` holds exactly when it is 0, and all three stores are emptied |
| CacheStore.CacheManager.GetCacheCounts | app/src/lib/cache.ts:267-278 | the numbers of entries of the two stores |
| CacheStore.CacheManager.GetAllCacheEntries | app/src/lib/cache.ts:281-319 | one listing per stored prediction set, each with its key, size, time and the models read from its key, no key twice |
| CacheStore.CacheManager.GetAllModelPerformanceEntries | app/src/lib/cache.ts:322-362 | one listing per stored result whose key has three '\|' fields, with the period, stat and models parsed from it; other keys are not listed; no key twice |
| CacheStore.CacheManager.DeleteEntries | app/src/lib/cache.ts:365-383 | exactly the given keys leave the prediction store, a missing key being no error; the other stores are untouched |
| CacheStore.CacheManager.DeleteModelPerformanceEntries | app/src/lib/cache.ts:386-404 | exactly the given keys leave the model-performance store |
| CacheSettings.ParseRetention | app/src/contexts/CacheContext.tsx:44-64 | the setting read back is always one the type admits; it is 'all' exactly for "all" and 'off' exactly for "off"; any other stored text whose `parseInt` is an allowed number of days gives that number; nothing stored, or any other text, gives the default of 30 days |
| CacheSettings.RetentionRoundTrip | app/src/contexts/CacheContext.tsx:47-50 | storing a setting as `String(days)` and reading it back gives the same setting |
| CacheSettings.NonNumericIsDefault | app/src/contexts/CacheContext.tsx:48-52 | nothing stored, or a stored text without digits other than 'all' and 'off', reads as the default of 30 days |
| CacheSettings.CacheContext.constructor | app/src/contexts/CacheContext.tsx:44-67 | both settings as read back from local storage, and zero statistics |
| CacheSettings.CacheContext.RefreshStats | app/src/contexts/CacheContext.tsx:156-168 | the usage and the counts become those the cache reports, and the settings are unchanged |
| CacheSettings.CacheContext.Initialize | app/src/contexts/CacheContext.tsx:73-90 | the cleanup runs with the prediction setting read at start-up; the model-performance store, both settings and local storage stay as they were; the usage and both counts are then those of the cleaned cache |
| CacheSettings.CacheContext.SetRetentionDays | app/src/contexts/CacheContext.tsx:171-187 | the setting is taken and stored under its key, reads back as itself, and the cleanup runs with it; the usage and counts are then those of the cleaned cache |
| CacheSettings.CacheContext.SetModelPerfRetentionDays | app/src/contexts/CacheContext.tsx:189-203 | the setting is taken and stored and reads back as itself; no cleanup runs, so neither store changes; the usage and counts are those of the cache |
| CacheSettings.CacheContext.ClearCache | app/src/contexts/CacheContext.tsx:206-210 | the count of entries the stores held is returned, `wasEmpty` exactly when it is 0; all three stores are empty, the settings and local storage stay, and the usage and counts read afterwards are zero |
| CacheModal.ModelCount | app/src/components/settings/CacheManagementModal.tsx:93 | an entry counts no models exactly when it has no model list or an empty one |
| CacheModal.FindGroup | app/src/components/settings/CacheManagementModal.tsx:95-96 | the `Map` lookup: a position found holds a row with that key, and no row has the key when none is found |
| CacheModal.GroupEntries | app/src/components/settings/CacheManagementModal.tsx:86-111 | the grouping loop computes `GroupRun`, each entry merged into its row or opening a new one |
| CacheModal.GroupRunGroups | app/src/components/settings/CacheManagementModal.tsx:86-111 | the rows are exactly the groups of entries sharing a base date and kind: distinct keys, every entry has its row, and each row holds the summed size, the latest time, the largest model count and the keys of its members in order |
| CacheModal.MemberWitness | app/src/components/settings/CacheManagementModal.tsx:91 | a key with members is the grouping key of one of the entries |
| CacheModal.NoRowNoMembers | app/src/components/settings/CacheManagementModal.tsx:95 | a key without a row has no members |
| CacheModal.NewRowGroups | app/src/components/settings/CacheManagementModal.tsx:101-110 | an entry whose key has no row opens one, and the rows stay the groups |
| CacheModal.NewRowDistinct | app/src/components/settings/CacheManagementModal.tsx:101-110 | a new row's key differs from every other row's key |
| CacheModal.NewRowSummaries | app/src/components/settings/CacheManagementModal.tsx:101-110 | after a new row every row summarises its members, the new one its single entry |
| CacheModal.NewRowFound | app/src/components/settings/CacheManagementModal.tsx:101-110 | after a new row every entry still finds its row |
| CacheModal.MergedRowGroups | app/src/components/settings/CacheManagementModal.tsx:95-100 | an entry whose key has a row joins it, and the rows stay the groups |
| CacheModal.MergedRowSummaries | app/src/components/settings/CacheManagementModal.tsx:96-100 | after a merge every row still summarises its members |
| CacheModal.MergedRowFound | app/src/components/settings/CacheManagementModal.tsx:95-100 | after a merge every entry still finds its row |
| CacheModal.RowsSizeUpdate | app/src/components/settings/CacheManagementModal.tsx:97 | replacing one row changes the total of the size column by the difference of the two sizes |
| CacheModal.GroupSizesTotal | app/src/components/settings/CacheManagementModal.tsx:363 | the rows' sizes add up to the sizes of all the entries |
| CacheModal.Toggle | app/src/components/settings/CacheManagementModal.tsx:238-246 | the toggled value changes membership and no other value does |
| CacheModal.ToggleTwice | app/src/components/settings/CacheManagementModal.tsx:289-297 | toggling twice gives back the selection |
| CacheModal.BaseDatesCount | app/src/components/settings/CacheManagementModal.tsx:234 | rows with distinct dates give as many dates as rows |
| CacheModal.SelectAllTwice | app/src/components/settings/CacheManagementModal.tsx:230-236 | on rows with distinct dates, select-all turns a partial selection into every row, and pressing it again clears it |
| CacheModal.SelectedKeysMembers | app/src/components/settings/CacheManagementModal.tsx:254-258 | a key is passed to the delete exactly when it is an original key of a selected row |
| CacheModal.KeysToDelete | app/src/components/settings/CacheManagementModal.tsx:248-260 | nothing is deleted without a selection; otherwise the original keys of the selected rows, row by row |
| CacheModal.GroupKeySameDate | app/src/components/settings/CacheManagementModal.tsx:91 | equal grouping keys mean equal base dates |
| CacheModal.MembersShareDate | app/src/components/settings/CacheManagementModal.tsx:87-91 | every entry is a member of its key, with the row's base date |
| CacheModal.MembersHaveKey | app/src/components/settings/CacheManagementModal.tsx:95 | every member of a key has that key |
| CacheModal.DatesAppend | app/src/components/settings/CacheManagementModal.tsx:100 | the keys of two runs of members are the keys of the first followed by those of the second |
| CacheModal.DeleteCoversSelected | app/src/components/settings/CacheManagementModal.tsx:248-258 | selecting an entry's base date passes that entry's key to the delete |
| CacheModal.HandleSort | app/src/components/settings/CacheManagementModal.tsx:221-228 | the clicked field becomes the sort field; the current field flips direction, another field starts descending |
| CacheModal.SortClickTwice | app/src/components/settings/CacheManagementModal.tsx:272-279 | clicking the same field twice gives back the direction |
| CacheModal.AllSortsLast | app/src/components/settings/CacheManagementModal.tsx:196-198 | a period written as a number below 999999 sorts before 'all' ascending |
| CacheModal.PeriodLabel | app/src/components/settings/CacheManagementModal.tsx:329-333 | a period written as a number is labelled "Last {n} days", and 'all' "All time" |
| CacheModal.FormatStat | app/src/components/settings/CacheManagementModal.tsx:335-347 | a known stat gets its label, any other stat is shown unchanged |
| CacheModal.StatShownAsIs | app/src/components/settings/CacheManagementModal.tsx:335-347 | a stat is shown unchanged exactly when it is not a known one |
| LocalStorageCleanup.LocalStorage.CleanupLocalStorage | app/src/lib/localStorageCleanup.ts:8-47 | with the ownership test corrected: exactly the stored keys that start with "courtvision-notified-", split on '-' into at least four parts and do not end with "-" and the signed-in user's id are removed; every other item stays; the count returned is the number of items removed |
| LocalStorageCleanup.LocalStorage.ClearNotificationStorage | app/src/lib/localStorageCleanup.ts:52-71 | exactly the keys with the "courtvision-notified-" prefix are removed and the count is the number removed |
| LocalStorageCleanup.CleanupStep | app/src/lib/localStorageCleanup.ts:19-39 | one key of the `forEach`: the keys removed so far grow by that key exactly when the corrected rule removes it, and the count by one |
| LocalStorageCleanup.ClearStep | app/src/lib/localStorageCleanup.ts:61-63 | one key of the logout `forEach`: removed exactly when it has the prefix |
| LocalStorageCleanup.NothingRemovedWithout | app/src/lib/localStorageCleanup.ts:13-15 | with no signed-in user (absent or empty id), or for a key without the prefix, neither the rule as written nor the corrected one removes anything |
| LocalStorageCleanup.KeyListed | app/src/lib/localStorageCleanup.ts:13-15 | every key of the form courtvision-notified-{type}-{userId} passes the filter |
| LocalStorageCleanup.KeyLast | app/src/lib/localStorageCleanup.ts:31 | the last '-' piece of a notification key is what follows its last '-' |
| LocalStorageCleanup.FourParts | app/src/lib/localStorageCleanup.ts:21-30 | every notification key splits into at least four parts |
| LocalStorageCleanup.PrefixSplit | app/src/lib/localStorageCleanup.ts:21 | the prefix contributes the pieces "courtvision" and "notified" to the split |
| LocalStorageCleanup.OtherUsersRemoved | app/src/lib/localStorageCleanup.ts:30-37 | for a '-'-free id, a user's notification key is removed on another user's login, and kept on that user's own login |
| LocalStorageCleanup.OwnKeyRemoved | app/src/lib/localStorageCleanup.ts:31-34 | as written: a signed-in user whose id contains '-' has their own notification keys removed |
| LocalStorageCleanup.OwnKeyKept | app/src/lib/localStorageCleanup.ts:31-34 | with the intended rule (the key ends with "-" and the user's id) the signed-in user's own keys are kept, whatever the id |
| LocalStorageCleanup.RulesAgree | app/src/lib/localStorageCleanup.ts:30-37 | for ids without '-' the intended rule and the rule as written remove the same keys |
| LocalStorageCleanup.SameTail | app/src/lib/localStorageCleanup.ts:31 | two '-'-free ids that both end a key right after a '-' are equal |
| NewPredictions.DatesToCheck | app/src/hooks/useNewPredictions.ts:34-41 | exactly two dates are checked, today's and tomorrow's |
| NewPredictions.MapSet | app/src/hooks/useNewPredictions.ts:58 | `Map.set`: keys stay distinct, the new pair is present, only the key set changes, every other entry is kept |
| NewPredictions.Fetched | app/src/hooks/useNewPredictions.ts:48-62 | the collected counts have distinct keys, each one of the dates checked |
| NewPredictions.FetchedExactly | app/src/hooks/useNewPredictions.ts:50-60 | for distinct dates, a date has a count exactly when its query had no error and a non-null count, and it is that count |
| NewPredictions.FetchCounts | app/src/hooks/useNewPredictions.ts:45-63 | no user gives an empty map; otherwise the loop over the dates collects exactly `Fetched` |
| NewPredictions.Poll | app/src/hooks/useNewPredictions.ts:43-68 | there is data exactly when a user is signed in and do-not-disturb is off, and then it is the collected counts |
| NewPredictions.MakeNotice | app/src/hooks/useNewPredictions.ts:79-91 | the notice counts the growth, is labelled "today" exactly for today's date and "tomorrow" otherwise, and is tagged "new-predictions-" and the date |
| NewPredictions.Step | app/src/hooks/useNewPredictions.ts:74-95 | one entry: a notice exactly when the count grew from a non-zero remembered count (an unseen date counts as 0), announcing a positive number; the date then remembers the count and no other date changes |
| NewPredictions.NoticesPositive | app/src/hooks/useNewPredictions.ts:77-83 | every notice of a run announces a positive number of new predictions |
| NewPredictions.RunRemembers | app/src/hooks/useNewPredictions.ts:95 | after a run every fetched date remembers its fetched count |
| NewPredictions.RunKeepsOthers | app/src/hooks/useNewPredictions.ts:74-96 | a run leaves every date it did not fetch as it was, remembered or not |
| NewPredictions.RunAnnounces | app/src/hooks/useNewPredictions.ts:74-96 | with distinct dates the notices of a run are the `Announcements`: each entry judged against the counts remembered before the run |
| NewPredictions.NothingAnnounced | app/src/hooks/useNewPredictions.ts:77 | no announcement without a count that grew from a non-zero remembered count |
| NewPredictions.FirstSeenSilent | app/src/hooks/useNewPredictions.ts:75-77 | dates seen for the first time never notify |
| NewPredictions.SecondRunSilent | app/src/hooks/useNewPredictions.ts:71-96 | processing the same counts a second time sends no notice |
| NewPredictions.CountsKey | app/src/hooks/useNewPredictions.ts:22 | the counts are stored under a notification key of type "prediction-counts", so the localStorage cleanups cover it |
| NewPredictions.NotificationTracker.constructor | app/src/hooks/useNewPredictions.ts:15-16 | the tracker starts with no remembered counts, not initialized and nothing sent |
| NewPredictions.NotificationTracker.Load | app/src/hooks/useNewPredictions.ts:19-31 | the first time a user is signed in, their persisted counts (if any) are read and the tracker is initialized; otherwise nothing changes |
| NewPredictions.NotificationTracker.ProcessCounts | app/src/hooks/useNewPredictions.ts:71-105 | without data or a signed-in user nothing changes; otherwise the remembered counts become those of `Run`, its notices are sent in order and the counts are persisted under the user's key |
| NewPredictions.NotificationTracker.Observe | app/src/hooks/useNewPredictions.ts:74-96 | one entry of `forEach`: the new state is `Step`'s |
| PyValues.Truncate | src/data_collection/collect_player_stats.py:21 | `int` of a float truncates toward zero: the result lies within one of the value, on the side of zero |
| PyValues.SafeInt | src/data_collection/collect_player_stats.py:17-23 | blank cells give nothing, an integer cell itself, a float cell its truncation |
| PyValues.SafeFloat | src/data_collection/collect_player_stats.py:9-15 | blank cells give nothing, numeric cells their value |
| PyValues.SafeStr | src/data_collection/collect_player_stats.py:25-28 | nothing exactly for blank cells, otherwise the cell's `str`, never empty for a cell that is not a float |
| PyValues.SafeIntStrict | src/data_collection/collect_players.py:10-16 | the stricter `safe_int` gives a number only where the lenient one gives the same number |
| PyValues.SafeIntStrictDiffers | src/data_collection/collect_players.py:10-16 | the two `safe_int`s differ exactly on numeric zero cells, read as 0 by the lenient one and as nothing by the strict one |
| PyValues.StripDigits | src/data_collection/collect_player_stats.py:21 | a string of digits is its own stripped form |
| PyValues.SafeIntReadsBack | src/data_collection/collect_player_stats.py:9-23 | `safe_int` reads back every printed integer, as a number cell or as its text, and `safe_float` reads its text as that number |
| PyValues.ParseMinutes | src/data_collection/collect_player_stats.py:30-42 | null-like cells ('' and 'None' included) give nothing, an integer cell its value, and text without ':' goes through `float` |
| PyValues.ClockMinutesBounds | src/data_collection/collect_player_stats.py:38 | a clock reading rounded to hundredths stays in its minute, and only 0:00 rounds to zero |
| PyValues.ParseDigits | src/data_collection/collect_player_stats.py:36-37 | a non-empty string of digits parses as its value |
| PyValues.ParseClock | src/data_collection/collect_player_stats.py:34-38 | a clock "M:S" of digits reads as M + S/60 rounded to two decimals |
| PlayerInfo.HeightInches | src/data_collection/collect_player_stats.py:74-83 | no height without a '-'; a height only from a text that splits into exactly two pieces, and then 12·feet + inches of them |
| PlayerInfo.HeightReadsBack | src/data_collection/collect_player_stats.py:74-83 | every height "F-I" reads back as 12·F + I |
| PlayerInfo.OnlyDash | src/data_collection/collect_player_stats.py:77-78 | a text that splits on '-' into two pieces has its only '-' between them |
| PlayerInfo.HeightNeedsOneDash | src/data_collection/collect_player_stats.py:77-78 | a height with two '-' is no height |
| PlayerInfo.DraftOf | src/data_collection/collect_player_stats.py:85-92 | an undrafted player (in any letter case) has no draft year, round or number; otherwise each is the `safe_int` of its text |
| PlayerInfo.DraftYearKept | src/data_collection/collect_player_stats.py:85-90 | a numeric draft year is never taken for "undrafted" and is kept as that number |
| PlayerInfo.MissingPlayerRecord | src/data_collection/collect_player_stats.py:57-104 | the inserted player is inactive, never has team 0 (a team id of 0 becomes none, any other is kept), has the parsed height, and no draft fields when undrafted |
| CollectPlayers.ActivePlayers | src/data_collection/collect_players.py:30 | the filter keeps only active players of the list, never more than the list holds |
| CollectPlayers.ActiveKept | src/data_collection/collect_players.py:30 | a player is kept exactly when it is in the list and active |
| CollectPlayers.ListedRecord | src/data_collection/collect_players.py:39-106 | the upserted row has the list's id, name and active flag, the team and weight through the stricter `safe_int`, the parsed height, and no draft fields when undrafted |
| CollectPlayers.CollectPlayersRun | src/data_collection/collect_players.py:23-123 | the loop over the active players computes `PlayersRun`: an upsert per player found, an error per id or lookup that raised, nothing for an empty frame |
| CollectPlayers.UpsertedIds | src/data_collection/collect_players.py:83-108 | at most one upserted id per active player |
| CollectPlayers.ErrorCount | src/data_collection/collect_players.py:113-116 | at most one error per active player |
| CollectPlayers.PlayersEffect | src/data_collection/collect_players.py:34-116 | `count` is the number of upserts, `errors` the number of raised lookups, together at most the number of active players; the table gains exactly the upserted ids and keeps every other row |
| CollectPlayers.UpsertedAreActive | src/data_collection/collect_players.py:30-51 | every upserted id is that of an active listed player whose info was found |
| CollectPlayers.UpsertedIndex | src/data_collection/collect_players.py:37-51 | some active player carries each upserted id |
| CollectPlayers.DraftRuleShared | src/data_collection/collect_players.py:74-81 | on text the two `safe_int`s agree, so the draft fields are parsed as `add_missing_player` parses them |
| CollectPlayers.TeamRulesDiffer | src/data_collection/collect_players.py:53 | a `TEAM_ID` of the text "0" is stored as team 0 here, while `add_missing_player` stores no team |
| CollectGames.GroupingOf | src/data_collection/collect_games.py:26-48 | the grouping lists exactly the games it holds |
| CollectGames.ValidRowsOf | src/data_collection/collect_games.py:28-35 | the number of rows of known teams under a game id, at most the number of rows |
| CollectGames.GroupingFaithful | src/data_collection/collect_games.py:26-48 | each game is listed once in first-appearance order, every entry is a known team's, and a game's entries are exactly its rows of known teams (no game without such a row) |
| CollectGames.GroupRows | src/data_collection/collect_games.py:28-48 | the grouping loop computes `GroupingOf` |
| CollectGames.GameType | src/data_collection/collect_games.py:80-85 | 'playoffs' exactly for ids starting "004", 'play_in' exactly for "005", 'regular_season' otherwise |
| CollectGames.GameStatus | src/data_collection/collect_games.py:78 | 'completed' exactly when the home score is known, 'scheduled' otherwise |
| CollectGames.RecordOf | src/data_collection/collect_games.py:54-85 | a game is recorded exactly when it has two entries of known teams; the team whose matchup contains "vs." is home, with its score; the status is 'completed' exactly when the home score is known |
| CollectGames.Upsert | src/data_collection/collect_games.py:88-101 | the table gains the game's id and every other game is unchanged |
| CollectGames.UpsertIdempotent | src/data_collection/collect_games.py:88-96 | upserting the same game twice is upserting it once |
| CollectGames.Insert | src/data_collection/collect_games.py:50-111 | every game is counted exactly once, as inserted, skipped or failed |
| CollectGames.CollectGames | src/data_collection/collect_games.py:8-118 | the two loops compute the grouping and then `Insert` over the games in first-appearance order |
| CollectGames.InsertedAreInTable | src/data_collection/collect_games.py:53-111 | every recordable game whose insert did not raise is in the table, and the table holds no game that was neither there nor grouped |
| CollectGames.CollectedGames | src/data_collection/collect_games.py:8-111 | a new game ends up in the table only with exactly two rows of known teams, and always when it has them and its insert did not raise |
| CollectGames.InsertedNeedRecord | src/data_collection/collect_games.py:56-58 | a game new to the table was inserted only with exactly two entries |
| BoxScore.IntTextIsNotBlank | src/data_collection/collect_player_stats.py:170-171 | a printed integer is none of '', 'None' and 'nan' |
| BoxScore.IsStarter | src/data_collection/collect_player_stats.py:170-171 | a missing position (None or NaN) is never a start, a numeric one always is, and a text one exactly when it is none of '', 'None' and 'nan' |
| BoxScore.StatsOf | src/data_collection/collect_player_stats.py:190-205 | one `safe_int` per counting column, in order |
| BoxScore.View | src/data_collection/collect_player_stats.py:157-175 | a row is skipped exactly when an id is missing or 0; otherwise it carries both ids, minutes exactly when it was played (present and not 0), the starter flag and the converted counting columns |
| BoxScore.FoundRecords | src/data_collection/collect_player_stats.py:165 | a missing player can be added exactly when `CommonPlayerInfo` finds them, and then as the `add_missing_player` record |
| BoxScore.LoadRows | src/data_collection/collect_player_stats.py:154-210 | the row loop computes `GameRun` over the frame |
| BoxScore.LoadRow | src/data_collection/collect_player_stats.py:157-207 | one row: skipped on a bad id, on an unknown player who cannot be added, or on zero or missing minutes; otherwise inserted (a second row of the same player storing nothing) and counted; the new state is `RowStep`'s |
| BoxScore.RowStepPlayers | src/data_collection/collect_player_stats.py:163-168 | one row adds its player to the table exactly when it is unknown and found, counted once |
| BoxScore.PlayersAdd | src/data_collection/collect_player_stats.py:165-166 | adding one found player keeps the table `players` plus the added ones |
| BoxScore.FreshCard | src/data_collection/collect_player_stats.py:166 | adding a new player raises `players_added` by one |
| BoxScore.PlayersEffect | src/data_collection/collect_player_stats.py:154-210 | after the frame the players table gains exactly the unknown players some row names and the API finds, each as its `add_missing_player` record, `players_added` is their number, and no player there before changes |
| BoxScore.ViewAdds | src/data_collection/collect_player_stats.py:157-168 | a row names an added player exactly when its view adds one |
| BoxScore.RowsMorePlayers | src/data_collection/collect_player_stats.py:163-168 | rows stored for known players stay sound when the players table grows |
| BoxScore.RowsInsert | src/data_collection/collect_player_stats.py:178-207 | inserting a sound row for a new player records that player |
| BoxScore.RowsConflict | src/data_collection/collect_player_stats.py:187 | a second insert for a player already stored changes nothing |
| BoxScore.RowStepStored | src/data_collection/collect_player_stats.py:157-207 | one row stores its player exactly when it qualifies, and counts at most one insert |
| BoxScore.StoredEffect | src/data_collection/collect_player_stats.py:154-210 | after the frame the game's rows gain exactly the players of the qualifying rows, each stored with non-zero ids, non-zero minutes and a known player; rows stored before are kept; at most one insert per row is counted |
| BoxScore.ViewInserts | src/data_collection/collect_player_stats.py:157-175 | a row qualifies exactly when its view is inserted, with non-zero ids and minutes |
| BoxScore.QualifyingCount | src/data_collection/collect_player_stats.py:154-207 | at most one qualifying row per row |
| BoxScore.InsertsEffect | src/data_collection/collect_player_stats.py:207 | `game_inserts` is the number of qualifying rows, a second row of the same player included |
| BoxScore.QualifyingIdsMembers | src/data_collection/collect_player_stats.py:156-207 | a player is stored by the frame exactly when some qualifying row names them |
| BoxScore.FirstFrameNone | src/data_collection/collect_player_stats.py:143-229 | a game gives up exactly when all three attempts raise; otherwise its frame is that of one of the three attempts |
| BoxScore.FetchBoxScore | src/data_collection/collect_player_stats.py:140-229 | the retry loop takes the first frame among three attempts, uses every attempt only when all raise, and the last attempt made is the one whose frame is used |
| CollectPlayerStats.FailedGames | src/data_collection/collect_player_stats.py:223-228 | at most one failed entry per game |
| CollectPlayerStats.CollectSeason | src/data_collection/collect_player_stats.py:133-229 | the loop over the completed games computes `SeasonRun`: a game whose three attempts raise is listed as failed, any other is loaded and counted, its inserts and added players added to the totals |
| CollectPlayerStats.SeasonCounts | src/data_collection/collect_player_stats.py:133-245 | `failed_games` lists exactly the games whose three attempts all raised, in order, and `count` is the number of the others |
| CollectPlayerStats.FailedGamesMembers | src/data_collection/collect_player_stats.py:223-228 | a game is listed as failed exactly when it is one of the season's games and its three attempts all raise |
| CollectPlayerStats.FailedGameChangesNothing | src/data_collection/collect_player_stats.py:223-229 | a failed game leaves the players table, the stored rows and `count` unchanged |
| CollectBatch.MissingPartition | src/data_collection/collect_batch.py:161-162 | the empty and the incomplete games split the missing games between them: each missing game lands in exactly one list, the empty ones with no stored rows and the incomplete ones with some |
| CollectBatch.Batch | src/data_collection/collect_batch.py:169 | Python's `missing_games[:batch_size]`: a prefix of the missing games holding `batch_size` of them, or all when there are fewer; a negative size drops that many from the end |
| CollectBatch.CollectBatchRun | src/data_collection/collect_batch.py:149-320 | no missing games returns `True`; otherwise the batch's games are collected in order, and the result is `False` exactly when the failures in a row reached `max_failures` |
| CollectBatch.CollectGame | src/data_collection/collect_batch.py:182-294 | one game: the `DELETE` of its existing rows, then either a failure counted in a row (stopping at `max_failures`) or a loaded frame judged complete against `min_players` |
| CollectBatch.StoppedStays | src/data_collection/collect_batch.py:286-292 | once the batch has returned `False`, the later games change nothing |
| CollectBatch.StopsIff | src/data_collection/collect_batch.py:266-292 | the failures-in-a-row counter equals the number of failing games at the end of the prefix, and the batch stops exactly when some failing game closes a run of `max_failures` of them |
| CollectBatch.StepStops | src/data_collection/collect_batch.py:266-286 | a failed game raises the counter by one and stops the batch once it reaches `max_failures`; any other game resets the counter to 0 |
| CollectBatch.StopsAtPrefix | src/data_collection/collect_batch.py:182-292 | whether an earlier game stops the batch does not depend on the games after it |
| CollectBatch.BatchCounts | src/data_collection/collect_batch.py:262-283 | each game is at most one of complete, failed or still incomplete, and a batch that runs to its end puts every game in exactly one of the three |
| CollectBatch.FailedFail | src/data_collection/collect_batch.py:279-283 | every game listed in `failed_games` is a game of the batch whose three attempts all raised |
| CollectBatch.TrailingFailures | src/data_collection/collect_batch.py:283 | the run of failed games at the end of a sequence is never longer than the sequence |
| CollectScheduleHtml.SeasonLabel | src/data_collection/collect_schedule_html.py:121-127 | a date from October on belongs to the season starting that year, an earlier date to the season that started the year before |
| CollectScheduleHtml.SeasonLabelReadsBack | src/data_collection/collect_schedule_html.py:124-127 | for a four-digit year the label is seven characters: the start year, a dash, and the last two digits of the year after |
| CollectScheduleHtml.PageStatus | src/data_collection/collect_schedule_html.py:283-305 | a page is completed exactly when its lower-cased first 500 characters hold "final", and scheduled exactly when they hold no "final" but hold "pm" or "am" |
| CollectScheduleHtml.PageScores | src/data_collection/collect_schedule_html.py:285-305 | only a completed page with a score match has scores; an away score never comes without a home score, because the home score is parsed first |
| CollectScheduleHtml.DigitMatchesGiveScores | src/data_collection/collect_schedule_html.py:290-295 | when the last match is two digit strings, a completed page gets home score = its second number and away score = its first |
| CollectScheduleHtml.ScheduleUpsert | src/data_collection/collect_schedule_html.py:357-376 | the `ON CONFLICT (game_id) DO UPDATE`: a new game is inserted whole, a stored game has only its status and scores replaced, and every other game is unchanged |
| CollectScheduleHtml.CountOf | src/data_collection/collect_schedule_html.py:350-355 | a status count never exceeds the number of games |
| CollectScheduleHtml.CountsPartition | src/data_collection/collect_schedule_html.py:350-355 | the scheduled, completed and in-progress counts add up to the number of valid games |
| CollectScheduleHtml.StoreGames | src/data_collection/collect_schedule_html.py:340-380 | the storing loop upserts every valid game in order and counts each under its own status |
| CollectScheduleHtml.StoredAreRegularSeason | src/data_collection/collect_schedule_html.py:375 | in a table of regular-season games, every game stays regular-season after the run |
| CollectScheduleHtml.FoundGamesStored | src/data_collection/collect_schedule_html.py:340-380 | every valid game is in the table afterwards, and no game stored before is lost |
| NbaGameIds.StartSequence | src/data_collection/collect_schedule_html.py:96-101 | with no stored id for the year's prefix the sequence starts at 1; otherwise it starts one past the number in the last id's final three characters |
| NbaGameIds.GameIdAllocator.constructor | src/data_collection/collect_schedule_html.py:206 | a run starts with no used ids |
| NbaGameIds.GameIdAllocator.Construct | src/data_collection/collect_schedule_html.py:71-108 | a stored game with the same date and teams keeps its id; otherwise the id is "002", the two-digit year and the least free sequence number from the start, which was unused and is now used; a last id not ending in a number raises and uses nothing |
| NbaGameIds.LeastUnused | src/data_collection/collect_schedule_html.py:103-108 | the `while True` loop returns the least sequence number from the start whose id is not yet used |
| NbaGameIds.Seq3Injective | src/data_collection/collect_schedule_html.py:104 | `f"{sequence:03d}"` gives different numbers different texts, so the loop tries a new id on each pass |
| EspnAbbreviations.EspnToDb | src/data_collection/collect_schedule_html.py:14-50 | `ESPN_TO_DB_ABBREV`: every ESPN spelling, upper- or lower-case, maps into the thirty database abbreviations |
| EspnAbbreviations.EspnKeyLengths | src/data_collection/collect_schedule_html.py:14-50 | the only three-letter ESPN spellings are "WSH" and "wsh" |
| EspnAbbreviations.NotAnEspnKey | src/data_collection/collect_schedule_html.py:14-52 | no database abbreviation is a key of the ESPN table |
| EspnAbbreviations.MapOnce | src/data_collection/collect_schedule_html.py:57-58 | one lookup in the ESPN table either keeps the string or yields a database abbreviation, and it keeps database abbreviations as they are |
| EspnAbbreviations.Normalise | src/data_collection/collect_schedule_html.py:55-61 | the abbreviation queried is a database abbreviation, and there is one exactly when the upper-cased, mapped string is in `DB_ABBREVS` |
| EspnAbbreviations.DbAbbrevsNormalise | src/data_collection/collect_schedule_html.py:55-61 | a database abbreviation normalises to itself |
| EspnAbbreviations.NormaliseIdempotent | src/data_collection/collect_schedule_html.py:55-61 | normalising a normalised abbreviation changes nothing |
| EspnAbbreviations.DoubleMappingHarmless | src/data_collection/collect_schedule_html.py:256-263 | the loop maps an upper-case abbreviation through the ESPN table before the lookup maps it again; the second mapping never changes what is looked up |
| EspnAbbreviations.TeamIdFromAbbreviation | src/data_collection/collect_schedule_html.py:54-69 | `get_team_id_from_abbreviation` finds a team exactly when the normalised abbreviation exists and is in the teams table, and then returns that team's id |
| EspnAbbreviations.ResolveTeam | src/data_collection/collect_schedule_html.py:256-280 | the loop gets a team when the normalised lookup or the direct lookup of the mapped string finds one |
| EspnAbbreviations.DirectLookupRedundant | src/data_collection/collect_schedule_html.py:265-277 | when the teams table holds only database abbreviations, the fallback lookup finds nothing the normalised lookup missed |
| CollectTodaysSchedule.CellToInt | src/data_collection/collect_todays_schedule.py:75-76 | `int(value)`: a JSON number converts to itself and null never converts |
| CollectTodaysSchedule.ScoreboardStatus | src/data_collection/collect_todays_schedule.py:86-110 | a row is scheduled exactly when its lower-cased status text holds "pm" or "am", and completed exactly when it holds neither but holds "final" |
| CollectTodaysSchedule.RowScores | src/data_collection/collect_todays_schedule.py:86-110 | a score is present exactly when the game is completed, its points column exists and the value converts; other games have no scores |
| CollectTodaysSchedule.RowRecord | src/data_collection/collect_todays_schedule.py:74-131 | a row has a stored game exactly when both team ids convert, and that game keeps the row's id, the run's season and the type 'regular_season' |
| CollectTodaysSchedule.CountStatus | src/data_collection/collect_todays_schedule.py:86-110 | a status count never exceeds the number of rows |
| CollectTodaysSchedule.CountsPartition | src/data_collection/collect_todays_schedule.py:86-110 | the three status counts add up to the number of rows |
| CollectTodaysSchedule.AppendRow | src/data_collection/collect_todays_schedule.py:73-131 | one more convertible row upserts its game and raises exactly the counter of its status by one |
| CollectTodaysSchedule.CollectSchedule | src/data_collection/collect_todays_schedule.py:73-137 | the run commits exactly when every row's team ids convert; it then holds every row upserted in order and the counts add up to the number of rows; otherwise nothing is committed |
| CollectTodaysSchedule.RowsStored | src/data_collection/collect_todays_schedule.py:112-135 | every row of a committed run is in the table, and no game stored before is lost |
| CollectTodaysSchedule.StoredRowsAreRegularSeason | src/data_collection/collect_todays_schedule.py:121-131 | every game a run adds is a regular-season game of the run's season |
| CollectTodaysSchedule.StatusOrdersDiffer | src/data_collection/collect_todays_schedule.py:86-91 | the scoreboard tests "pm"/"am" before "final" and the page scraper the other way round, so the text "final pm" is scheduled here and completed there |
| CollectScheduleFallback.Kept | src/data_collection/collect_schedule_fallback.py:83-97 | the loop processes no more rows than it is given |
| CollectScheduleFallback.KeptSingle | src/data_collection/collect_schedule_fallback.py:89-97 | a single row is processed exactly when neither of its team ids is null |
| CollectScheduleFallback.KeptConcat | src/data_collection/collect_schedule_fallback.py:89-97 | the rows kept from two runs of rows joined are the rows kept from each, in order, so with `KeptSingle` the loop is an order-keeping filter |
| CollectScheduleFallback.SkippedCount | src/data_collection/collect_schedule_fallback.py:89-97 | the skipped rows number no more than the rows |
| CollectScheduleFallback.KeptAndSkipped | src/data_collection/collect_schedule_fallback.py:89-97 | every row is either skipped or kept, and every kept row comes from the input with both team ids present |
| CollectScheduleFallback.NothingSkipped | src/data_collection/collect_schedule_fallback.py:89-97 | with no null team id every row is kept, so the fallback behaves as the scoreboard collector |
| CollectScheduleFallback.KeptRowConvertible | src/data_collection/collect_schedule_fallback.py:99-100 | when the run commits, each kept row's team ids convert |
| CollectScheduleFallback.CollectFallback | src/data_collection/collect_schedule_fallback.py:83-162 | null-team rows are skipped; the run commits exactly when every kept row's team ids convert, and then it has upserted the kept rows in order with status counts that add up to their number |
| BuildFeatures.Earlier | src/feature_engineering/build_features.py:81-82 | the window a shifted rolling feature sees on row i is the up to w rows right before it, in order |
| BuildFeatures.ExpWeightedMean | src/feature_engineering/build_features.py:68-73 | `exp_weighted_mean` has a value exactly when the window is not empty |
| BuildFeatures.NewestWeighsMost | src/feature_engineering/build_features.py:71-72 | the normalised weights add up to 1, and the newest entry of the window weighs more than any other |
| BuildFeatures.RollingMean | src/feature_engineering/build_features.py:79-83 | `rolling(w, min_periods=1).mean().shift(1)` is missing exactly on the player's first row |
| BuildFeatures.RollingWeighted | src/feature_engineering/build_features.py:86-90 | the weighted rolling feature is missing exactly on the player's first row |
| BuildFeatures.RollingUsesOnlyEarlierRows | src/feature_engineering/build_features.py:79-105 | both rolling features of a row depend only on the w rows before it, never on the row itself or later rows |
| BuildFeatures.RollingBetween | src/feature_engineering/build_features.py:68-90 | past the first row, the plain and the weighted means both lie between the smallest and the largest value of the window |
| BuildFeatures.NetRating | src/feature_engineering/build_features.py:161-162 | `net_rating_l{w}` is present exactly when both ratings are, and then net + defensive = offensive |
| BuildFeatures.ShiftedSum | src/feature_engineering/build_features.py:166 | `shift(1).rolling(w, min_periods=1).sum()` is missing exactly on the first row, where the window holds only the shift's NaN |
| BuildFeatures.ShotPct | src/feature_engineering/build_features.py:165-176 | a shooting percentage is 0 when the attempts window is not positive, the first row included |
| BuildFeatures.ShotPctBetween | src/feature_engineering/build_features.py:165-176 | when every made count is between 0 and its attempts, the percentage lies in [0, 1] |
| BuildFeatures.Per36Rate | src/feature_engineering/build_features.py:183-187 | a per-36 rate is 0 when the minutes window is not positive, the first row included |
| BuildFeatures.RatesNonNegative | src/feature_engineering/build_features.py:183-205 | with non-negative stats, the per-36 and rebound rates are non-negative |
| BuildFeatures.ReboundRateIsPer36 | src/feature_engineering/build_features.py:203-205 | `reb_sum / (min_sum / 36)` equals the per-36 rebound figure on every row |
| BuildFeatures.FallbackRatio | src/feature_engineering/build_features.py:190-201 | `ast_to_ratio` and `pts_per_ast` fall back to the numerator sum when the denominator window is not positive, and are missing exactly on the first row |
| BuildFeatures.DaysRest | src/feature_engineering/build_features.py:252-256 | `days_rest` is 3 on the first row and never negative on dates in ascending order |
| BuildFeatures.CountWithin | src/feature_engineering/build_features.py:279-282 | the rows counted within d days are among those compared |
| BuildFeatures.ScheduleDensity | src/feature_engineering/build_features.py:264-285 | the density loop gives every row the number of the player's earlier rows within 3 days and within 7 days of it, inclusive |
| BuildFeatures.DensityBounds | src/feature_engineering/build_features.py:274-282 | both counts are 0 on the first row, and the 3-day count <= the 7-day count <= the number of earlier rows |
| BuildFeatures.HeavyNeedsFourEarlierRows | src/feature_engineering/build_features.py:287 | a heavy schedule needs at least four earlier rows |
| BuildFeatures.BackToBackIsDense | src/feature_engineering/build_features.py:256-282 | a back-to-back row always counts its previous game in the 3-day density |
| BuildFeatures.Streak | src/feature_engineering/build_features.py:290-292 | the streak at row i is at most i |
| BuildFeatures.StreakIsLongestRun | src/feature_engineering/build_features.py:290-292 | every gap inside the streak is at most 2 days, and the gap just before it is longer; the streak is the longest such run ending at the row |
| BuildFeatures.ConsecutiveGames | src/feature_engineering/build_features.py:293-294 | `consecutive_games` is the previous row's streak, so it is less than the row's index, and 0 on the first row |
| BuildFeatures.PrevSameSeason | src/feature_engineering/build_features.py:301-302 | the row the shift reads is the latest earlier row of the same season; when there is none, no earlier row has that season |
| BuildFeatures.GamesPlayedSeasonCountsEarlierRows | src/feature_engineering/build_features.py:301-302 | `games_played_season` is the number of the player's earlier rows in the same season |
| BuildFeatures.SeasonFlags | src/feature_engineering/build_features.py:303-305 | exactly one of the early, mid and late flags is set: early up to 20 games, mid above 20 up to 60, late above 60 |
| BuildFeatures.BatchPosition | src/feature_engineering/build_features.py:122-140 | a missing position is filled with 'G' and classified as a guard |
| BuildFeatures.BatchPositionMatchesOnline | src/feature_engineering/build_features.py:129-138 | the batch and the online builders classify every position the same way, including a missing one |
| BuildFeatures.BatchOneHot | src/feature_engineering/build_features.py:123-143 | the one-hot encoding has exactly one 1, and a missing position encodes as (1, 0, 0) |
| BuildFeatures.StarPoints | src/feature_engineering/build_features.py:212 | a group's 15-minute points come from rows of the table |
| BuildFeatures.MarkStarTeammates | src/feature_engineering/build_features.py:216-233 | the loop over `team_season_stars` gives every row the flag and average of the last star that masks it, and (0, 0.0) when none does |
| BuildFeatures.StarOutIsSomeStar | src/feature_engineering/build_features.py:216-233 | a row is flagged exactly when some listed star masks it, and then it carries that star's average; an unflagged row keeps 0.0 |
| BuildFeatures.StarOutNeedsQualifyingStar | src/feature_engineering/build_features.py:212-233 | with the star table built from the rows, a row is flagged exactly when some group whose 15-minute average is at least 20 masks it, and then its `star_teammate_ppg` is at least 20 |
| BuildFeatures.AddPlayerCounts | src/feature_engineering/build_features.py:236-238 | one player's assignment sets their rows to the running count of their flagged rows and leaves every other row as it was |
| BuildFeatures.CountGamesWithoutStar | src/feature_engineering/build_features.py:235-238 | every row of a flagged player gets the number of that player's flagged rows up to and including it; every other row stays 0 |
| BuildFeatures.PlayerFlags | src/feature_engineering/build_features.py:237 | the running count never exceeds the rows counted |
| BuildFeatures.GamesWithoutStarNeverDecreases | src/feature_engineering/build_features.py:235-238 | `games_without_star` never decreases along a player's rows, and a flagged row counts itself, because the cumulative sum includes the current row |
| BuildFeatures.PrevTeamRow | src/feature_engineering/build_features.py:310 | the row the team shift reads is the latest earlier table row of the same team and season |
| BuildFeatures.DenseRank | src/feature_engineering/build_features.py:307-309 | a dense rank is at least 1 |
| BuildFeatures.GamesRemaining | src/feature_engineering/build_features.py:307-312 | `games_remaining` lies in [0, 82], and it is 82 exactly on the first table row of the team's season |
| BuildFeatures.SeasonStart | src/feature_engineering/build_features.py:297 | a season's start is the least date of its rows over the whole table, and it is one of those dates |
| BuildFeatures.SeasonProgress | src/feature_engineering/build_features.py:298-299 | `season_progress` lies in [0, 1] |
| BuildFeatures.SeasonProgressUnclipped | src/feature_engineering/build_features.py:297-299 | no row is dated before its season's start, so the lower clip never applies, and within 180 days the progress is exactly the elapsed fraction |
| BuildFeatures.TeamOffset | src/feature_engineering/build_features.py:316-340 | a team's offset is in [-10, -5], and -6 when the team has no timezone |
| BuildFeatures.TravelOf | src/feature_engineering/build_features.py:341-343 | the difference is in [-5, 5]; a home row travels neither way; west-to-east and east-to-west are the away rows whose opponent's offset is larger or smaller, and never both |
| BuildFeatures.DaysSinceBreak | src/feature_engineering/build_features.py:346-359 | `days_since_asb` lies in [-365, 365] and is 0 for a season not in the All-Star table |
| BuildFeatures.PostBreakBounceIsTwoWeeks | src/feature_engineering/build_features.py:357-360 | `post_asb_bounce` is set exactly in the first 14 days after a known break; the clipping never interferes |
| BuildFeatures.PlayoffsBefore | src/feature_engineering/build_features.py:241 | the running playoff count never exceeds the rows counted |
| BuildFeatures.PointsWhere | src/feature_engineering/build_features.py:244-245 | the points filtered by playoff flag come from the player's rows |
| BuildFeatures.PlayoffFeaturesVanish | src/feature_engineering/build_features.py:76-247 | without a row typed exactly 'playoff', `playoff_games_career` and `playoff_performance_boost` are 0 on every row |
| BuildFeatures.StoredPlayoffFeaturesVanish | src/feature_engineering/build_features.py:76 | the game collector stores 'playoffs', never 'playoff', so on the histories it writes both playoff features are always 0 |
| BuildFeatures.MinutesTrend | src/feature_engineering/build_features.py:108-119 | a player with at most 10 rows has trend 0, because the shift's leading NaN is among the last 10 values |
| BuildFeatures.MinutesTrendIgnoresLastRow | src/feature_engineering/build_features.py:108-119 | the trend reads only the 10 rows before the player's last row |
| Training.TrainingFeatures | src/models/train_xgboost.py:44-60 | a column is a feature exactly when it contains an allow-list entry, holds none of `team_id`, `player_id` and `game_id`, and is not a raw same-game value |
| Training.MinutesPlayedNeverFeature | src/models/train_xgboost.py:44-60 | `minutes_played` matches the allow-list, yet the raw-value filter always removes it |
| Training.OffensiveRatingNeverFeature | src/models/train_xgboost.py:44-60 | `offensive_rating` matches the allow-list, yet the raw-value filter always removes it |
| Training.TuningFeatureIsTrainingFeature | src/models/train_xgboost.py:44-60 | every column tuned on is also trained on |
| Training.NoIdMarkerWithout | src/models/train_xgboost.py:53 | a column without the letters m, p and g passes the id filter |
| Training.TzDifferenceTrainedNotTuned | src/models/train_xgboost.py:44-60 | `tz_difference` is trained on but never tuned on, because the tuning allow-list lacks it |
| Training.LeagueRule | src/models/train_xgboost.py:63-73 | the value recorded for a column is 0 exactly when the column is not team-, opponent- or pace-like and is a flag, position, trend or travel indicator |
| Training.TuningZeroesFewer | src/models/tune_hyperparameters.py:214-222 | every column tuning imputes with 0 is one training imputes with 0, and the travel indicators are the only columns training zeroes that tuning does not |
| Training.FillAgreesWithLeagueRule | src/models/train_xgboost.py:63-88 | the fill loop fills with 0 exactly the columns for which the league-mean loop recorded 0; every other column gets a mean |
| Training.ImputeColumn | src/models/train_xgboost.py:75-90 | a present cell is kept; a missing cell gets the column mean (team-like columns), 0 (flags), or the mean of the player's earlier present cells, falling back to the column mean; with no mean at all it gets 0 |
| Training.BuildSplitPlan | src/models/train_xgboost.py:121-137 | more than two seasons give the season folds, one per season from the third on, built as in tuning; otherwise a time-series split with three splits |
| Training.BestFold | src/models/train_xgboost.py:139-192 | the fold whose model is kept has the smallest error, and every earlier fold's error is strictly larger, so ties go to the first; no folds keep no model |
| Training.Objective | src/models/train_xgboost.py:156 | the objective is 'count:poisson' exactly for blocks and steals, otherwise 'reg:squarederror' |
| Training.ObjectiveMatchesTuning | src/models/train_xgboost.py:156-204 | training uses the same objective that XGBoost was tuned with |
| Training.LoadTunedParams | src/models/train_xgboost.py:20-29 | `load_tuned_params` returns nothing when the policy says no, and otherwise whatever the stored file holds |
| Training.TunedOnlyForCountTargets | src/models/train_xgboost.py:144-164 | under the selective policy XGBoost trains with tuned parameters only for blocks and steals |
| TuningPolicy.ShouldUseTunedParams | data/models/selective_tuning_config_used.py:40-47 | without the selective policy a model always uses tuned parameters; with it, only XGBoost for blocks and steals and CatBoost for each of the seven targets does, and every unknown family or target does not |
| TuningPolicy.SameTargetKeys | data/models/selective_tuning_config_used.py:1-38 | all four families list the same seven targets |
| Tuning.SortedSeasons | src/models/tune_hyperparameters.py:20 | the result is strictly increasing and holds exactly the seasons that occur in the column |
| Tuning.Where | src/models/tune_hyperparameters.py:33-34 | the result is ascending and holds exactly the row positions whose season satisfies the test |
| Tuning.Range | src/models/tune_hyperparameters.py:22-24 | the result holds exactly the integers from the lower bound up to, not including, the upper bound, in order |
| Tuning.CreateCvSplits | src/models/tune_hyperparameters.py:19-39 | the loop over the sorted seasons builds exactly the fold list of the split specification |
| Tuning.FoldAtAdmitted | src/models/tune_hyperparameters.py:36 | every fold built for a season from the second on has non-empty training and validation rows, so the guard never drops one |
| Tuning.FewSeasonsSingleSplit | src/models/tune_hyperparameters.py:22-24 | with fewer than three distinct seasons there is a single split: the first four fifths of the rows train and the rest validate |
| Tuning.SeasonFoldContents | src/models/tune_hyperparameters.py:26-37 | with k >= 3 seasons there are k - 2 folds; fold j trains on exactly the rows of seasons before the (j+2)-th sorted season and validates on exactly that season's rows |
| Tuning.FoldDisjoint | src/models/tune_hyperparameters.py:26-37 | no row is both a training and a validation row of the same fold |
| Tuning.TrainingGrows | src/models/tune_hyperparameters.py:26-37 | each fold's training rows include those of the fold before it |
| Tuning.SplitsNonEmpty | src/models/tune_hyperparameters.py:19-39 | the split list is never empty, so the mean fold error is always defined |
| Tuning.LossFor | src/models/tune_hyperparameters.py:58-117 | XGBoost, LightGBM and CatBoost each get their own Poisson loss for blocks and steals and their squared-error loss otherwise; random forest gets no loss parameter |
| Tuning.PoissonIffCountTarget | src/models/tune_hyperparameters.py:58-102 | for the three boosting families the loss is Poisson exactly when the target is blocks or steals |
| Tuning.MeanMaeBetween | src/models/tune_hyperparameters.py:119-131 | the value a trial returns lies between the smallest and the largest fold error |
| Tuning.TuningFeatures | src/models/tune_hyperparameters.py:196-211 | a column is tuned on exactly when it matches an allow-list entry, names no team, player or game id and is not a raw box-score value |
| Tuning.TzDifferenceNotTuned | src/models/tune_hyperparameters.py:196-201 | the `tz_difference` column matches no allow-list entry, so tuning never uses it although training does |
| Confidence.CvScore | src/predictions/predict_games.py:93-97 | the spread score lies in [0, 30]; it is 15 when the mean is not positive and the full 30 for a positive mean with no spread |
| Confidence.CvScoreAntitone | src/predictions/predict_games.py:93-95 | for the same positive mean, a wider spread never scores higher |
| Confidence.SeasonStability | src/predictions/predict_games.py:90-99 | the season part lies in [0, 30]; it is 10 with fewer than five games and 15 with five or more games and no positive mean |
| Confidence.StabilityScore | src/predictions/predict_games.py:88-128 | the stability component lies in [0, 30] |
| Confidence.CareerFallsBackToSeason | src/predictions/predict_games.py:101-128 | without a connection and player the stability is three quarters of the season part; when the career query raises or finds fewer than 20 games the career part equals the season part |
| Confidence.Available | src/predictions/predict_games.py:152-154 | the count never exceeds the number of expected features and equals it exactly when every one is a column with a value in the first row |
| Confidence.CompletenessScore | src/predictions/predict_games.py:129-155 | the completeness component lies in [0, 20] and is 20 exactly when all 49 expected features are present |
| Confidence.ExperienceScore | src/predictions/predict_games.py:157-230 | the experience component lies in [0, 25] |
| Confidence.FullExperience | src/predictions/predict_games.py:182-230 | experience is the full 25 exactly when the player has at least 20 games this season and at least 50 career games |
| Confidence.InjuryOnlyHurts | src/predictions/predict_games.py:158-180 | an injury return never raises the experience score, and leaves it unchanged unless the player returned within 30 days after missing at least five games |
| Confidence.TransactionPenalty | src/predictions/predict_games.py:252-265 | a trade or signing costs between 0 and 15 points, nothing after 21 days, and a signing at most 12 |
| Confidence.RosterScore | src/predictions/predict_games.py:232-274 | the roster component lies in [0, 25] and is 25 exactly when there is no new-team penalty and no recent trade or signing counts against the player |
| Confidence.ConfidenceOf | src/predictions/predict_games.py:276 | the confidence is an integer in [0, 100] |
| Confidence.ClampNeverBinds | src/predictions/predict_games.py:276 | the four components already sum into [0, 100], so the clamp never changes the score and the result is its floor |
| Confidence.PerfectScore | src/predictions/predict_games.py:85-276 | a connected veteran with a steady season and career, every expected feature present and no roster news scores 100 |
| Confidence.CalculateConfidence | src/predictions/predict_games.py:85-276 | the running score the function accumulates, clamped and truncated, is the confidence defined component by component |
| Recovery.Candidates | src/data_collection/mark_recovered_players.py:20-30 | a report is a candidate exactly when its status is Out, Day-To-Day or Questionable and no report of the same player is later |
| Recovery.CompletedOn | src/data_collection/mark_recovered_players.py:49-52 | exactly the ids of games completed on the target date |
| Recovery.AppearsIn | src/data_collection/mark_recovered_players.py:46-57 | true exactly when some box-score row of the player belongs to one of the given games |
| Recovery.MissedDates | src/data_collection/mark_recovered_players.py:58-66 | exactly the dates from the report date up to, not including, the target date on which some league game was completed |
| Recovery.Healed | src/data_collection/mark_recovered_players.py:68-74 | the row keeps its player and report date and becomes Healthy with the target date as return date and the missed game dates as games missed |
| Recovery.Marked | src/data_collection/mark_recovered_players.py:45-81 | no row appears or vanishes; every recovering candidate is healed and every other row is as it was |
| Recovery.PlayedAmong | src/data_collection/mark_recovered_players.py:45-57 | exactly the given candidates whose player appeared in a game completed on the target date |
| Recovery.RecoveredIds | src/data_collection/mark_recovered_players.py:45-76 | the healed rows are exactly the candidates that played on the target date |
| Recovery.HealRows | src/data_collection/mark_recovered_players.py:68-74 | healing rows neither adds nor removes a row |
| Recovery.MarkRecoveredPlayers | src/data_collection/mark_recovered_players.py:7-81 | the table after the run is the marked table; `recovered` is the number of rows healed and the two counters add up to the number of candidates, also when there are none |
| Recovery.HealCandidates | src/data_collection/mark_recovered_players.py:45-79 | the loop, in any order, heals exactly the candidates that played, counts them in `recovered` and the rest in `still_injured` |
| Recovery.OnlyRecoveryFieldsChange | src/data_collection/mark_recovered_players.py:68-74 | the check keeps every row, its player and its report date; a row that changes was a candidate and is now Healthy |
| Recovery.LatestPreserved | src/data_collection/mark_recovered_players.py:25-29 | after the check every report is a latest report exactly when it was one before |
| Recovery.RerunChangesNothing | src/data_collection/mark_recovered_players.py:7-81 | a second run for the same date recovers nobody and leaves the table as the first run left it |
| Recovery.ReportDateCounts | src/data_collection/mark_recovered_players.py:58-64 | a completed game on the report date itself counts as a missed game date |
| TeammateBoost.InjuredStars | src/predictions/apply_teammate_boost.py:6-35 | every star returned averages at least 20 points in the season, and every player whose latest report says Out and who averages 20 is returned |
| TeammateBoost.InjuredStarIsRecoveryCandidate | src/predictions/apply_teammate_boost.py:14-19 | an injured star's latest Out report is one the recovery check also looks at |
| TeammateBoost.OnlyLatestReportCounts | src/predictions/apply_teammate_boost.py:15-19 | a player none of whose latest reports says Out is not an injured star, whatever earlier reports say |
| TeammateBoost.TeammateBoosts | src/predictions/apply_teammate_boost.py:37-64 | the map holds exactly the players with a dependency row on the star in the season, each with that row's three boosts |
| TeammateBoost.Upserted | src/data_collection/calculate_teammate_dependency.py:136-163 | every written row is stored under its key, every other row of the table is kept, and no other key appears |
| TeammateBoost.BoostsReadBack | src/predictions/apply_teammate_boost.py:37-64 | on a table without earlier rows for the star and season, the boosts read back after an upsert are exactly the rows written, with their boosts |
| TeammateBoost.BoostsComeFromDependencyRun | src/data_collection/calculate_teammate_dependency.py:126-163 | after a dependency run for a star, the players boosted are exactly those it wrote, and each of their points boosts is at least 2 in size |
| TeammateBoost.Raise | src/predictions/apply_teammate_boost.py:96-98 | a boosted row keeps its player and other columns and gains the three boosts on points, rebounds and assists |
| TeammateBoost.Boosted | src/predictions/apply_teammate_boost.py:79-100 | every row keeps its position and is raised by the sum of the boosts all injured stars give its player |
| TeammateBoost.ApplyBoostsToPredictions | src/predictions/apply_teammate_boost.py:66-106 | the array after the loops is the boosted predictions and the adjustment count is the number of (star, matching row) pairs |
| TeammateBoost.ApplyStar | src/predictions/apply_teammate_boost.py:90-100 | each row is raised by this star's boost for its player, if any, and the count is the number of rows whose player has one |
| TeammateBoost.NoStarsNoChange | src/predictions/apply_teammate_boost.py:71-73 | with no injured star the predictions are unchanged and nothing is adjusted |
| TeammateBoost.UnmatchedUnchanged | src/predictions/apply_teammate_boost.py:93 | a player in no star's map receives no boost |
| TeammateBoost.TotalBoostConcat | src/predictions/apply_teammate_boost.py:79-98 | the boosts of two lists of stars add up to those of their concatenation |
| TeammateBoost.BoostedTwice | src/predictions/apply_teammate_boost.py:79-98 | boosting for one list of stars and then another is boosting for both at once |
| TeammateBoost.AdjustmentsBound | src/predictions/apply_teammate_boost.py:100 | there are never more adjustments than stars times rows |
| TeammateDependency.Avg | src/data_collection/calculate_teammate_dependency.py:76-93 | the average is NULL exactly when every value is NULL |
| TeammateDependency.QualifyingLines | src/data_collection/calculate_teammate_dependency.py:82-86 | exactly the player's rows with at least 15 minutes |
| TeammateDependency.ByStar | src/data_collection/calculate_teammate_dependency.py:87-117 | exactly the given rows in whose game the star did, or did not, log at least 15 minutes |
| TeammateDependency.WithWithoutPartition | src/data_collection/calculate_teammate_dependency.py:76-121 | the games with and without the star together count every qualifying game of the teammate once |
| TeammateDependency.LatestLine | src/data_collection/calculate_teammate_dependency.py:40-47 | the row picked is one of the star's rows and none of them is later |
| TeammateDependency.Distinct | src/data_collection/calculate_teammate_dependency.py:58 | the result has no repeats and holds exactly the given ids |
| TeammateDependency.Teammates | src/data_collection/calculate_teammate_dependency.py:57-66 | each player appears once, and exactly the players other than the star with a 15-minute row for the team appear |
| TeammateDependency.Assess | src/data_collection/calculate_teammate_dependency.py:126-134 | a stored row has at least three games without the star and a points swing of at least 2; each boost is the average without the star minus the average with it |
| TeammateDependency.Written | src/data_collection/calculate_teammate_dependency.py:74-165 | a teammate is stored exactly when it is in the list and its assessment passes both `continue`s, and it is stored with that assessment |
| TeammateDependency.DependencyOutcome | src/data_collection/calculate_teammate_dependency.py:7-173 | every stored row has at least three games without the star and a points swing of at least 2 |
| TeammateDependency.CalculateDependencyForPlayer | src/data_collection/calculate_teammate_dependency.py:7-173 | the run ends as the outcome specification says, through the not-found and not-a-star exits, and otherwise `dependencies_found` is the number of rows stored |
| TeammateDependency.StoreDependencies | src/data_collection/calculate_teammate_dependency.py:74-165 | over distinct teammates the loop stores exactly the assessed rows and counts each one |
| TeammateDependency.NonStarWritesNothing | src/data_collection/calculate_teammate_dependency.py:22-36 | a player without a qualifying average, or averaging under 20 points, gets no rows |
| TeammateDependency.GamesAddUp | src/data_collection/calculate_teammate_dependency.py:96-121 | a stored row's games with and without the star add up to the teammate's qualifying games |
| TeammateDependency.WrittenAreTeammates | src/data_collection/calculate_teammate_dependency.py:40-66 | a stored teammate is not the star and logged 15 minutes for the team of the star's latest game |
| Evaluation.AbsErrors | src/predictions/evaluate_predictions.py:103-109 | one error per statistic, each the absolute difference of prediction and actual value |
| Evaluation.AvgErrorZeroIffExact | src/predictions/evaluate_predictions.py:103-112 | the mean error is never negative and is zero exactly when all seven predictions were exact |
| Evaluation.AllPresent | src/predictions/evaluate_predictions.py:100-109 | the seven values are read out exactly when none of them is NULL, each one the line's value |
| Evaluation.StoredError | src/predictions/evaluate_predictions.py:103-128 | an error is stored exactly when neither side holds a NULL, and it is the mean absolute error rounded to two decimals |
| Evaluation.StoredErrorBounds | src/predictions/evaluate_predictions.py:103-128 | a stored error is never negative, and an exact prediction stores 0 |
| Evaluation.Evaluate | src/predictions/evaluate_predictions.py:85-148 | a prediction is skipped exactly when its player has no box score in the game; an updated row differs from the old one only in the actual values, set to the box score, and in the stored error, which is then present |
| Evaluation.EvaluateIdempotent | src/predictions/evaluate_predictions.py:85-130 | evaluating an already evaluated row again gives the same row |
| Evaluation.Evaluated | src/predictions/evaluate_predictions.py:81-148 | the loop neither adds nor removes a prediction |
| Evaluation.CountsAddUp | src/predictions/evaluate_predictions.py:81-148 | every prediction the query returned is updated, counted as an error or skipped for lack of a box score, exactly one of the three |
| Evaluation.EvaluateModel | src/predictions/evaluate_predictions.py:51-148 | the table after the loop is the evaluated table for the ids the query returned, `updated` counts the updated rows and `errors` the rows whose error raised |
| Evaluation.OnlyEvaluatedColumnsChange | src/predictions/evaluate_predictions.py:51-130 | a row that changes belongs to the date, the model version and a completed game with a box score, and only its actual values and error change |
| Evaluation.RerunSameTable | src/predictions/evaluate_predictions.py:81-148 | running the evaluation again over the same predictions leaves the table as the first run left it |
| Evaluation.ReportedMetrics | src/predictions/evaluate_predictions.py:180-190 | a model's metrics are kept exactly when its points error is present and not zero |
| Evaluation.InsertByOverall | src/predictions/evaluate_predictions.py:216 | inserting into a list ordered by overall error keeps it ordered and adds exactly the one entry |
| Evaluation.SortByOverall | src/predictions/evaluate_predictions.py:216 | the result is ordered by overall error and is a permutation of the input |
| Evaluation.Summary | src/predictions/evaluate_predictions.py:180-218 | the summary lists exactly the reported models, lowest overall error first |
| Evaluation.ExactPointsNotReported | src/predictions/evaluate_predictions.py:180 | a model whose points error is exactly 0 is left out of the summary |
| Ensemble.ModelTypes | src/predictions/ensemble_utils.py:20-21 | the model list is never empty: a given non-empty list is kept, and a missing or empty one becomes `['xgboost']` |
| Ensemble.InsertString | src/predictions/ensemble_utils.py:63 | inserting into a sorted list of strings keeps it sorted and adds exactly the one string |
| Ensemble.SortStrings | src/predictions/ensemble_utils.py:63 | the result is sorted and is a permutation of the input |
| Ensemble.SortedUnique | src/predictions/ensemble_utils.py:63 | two sorted lists holding the same strings the same number of times are equal |
| Ensemble.TagOrderIndependent | src/predictions/ensemble_utils.py:63 | the ensemble tag does not depend on the order in which the model types are given |
| Ensemble.TagSplitsBack | src/predictions/ensemble_utils.py:63 | splitting the tag on '+' gives back the sorted model types when none of their names holds a '+' |
| Ensemble.Selected | src/predictions/ensemble_utils.py:39-43 | exactly the rows of the date, of a scheduled game and of one of the model types |
| Ensemble.Members | src/predictions/ensemble_utils.py:52 | exactly the rows of one (player, game, date) group |
| Ensemble.Combine | src/predictions/ensemble_utils.py:52-71 | an averaged row has seven stats and carries the tag |
| Ensemble.EnsemblePredictions | src/predictions/ensemble_utils.py:12-73 | there is one averaged row for each (player, game, date) group among the selected rows, and no other |
| Ensemble.NoRowsNoEnsemble | src/predictions/ensemble_utils.py:49-50 | with no matching rows the result is empty |
| Ensemble.SameTagEverywhere | src/predictions/ensemble_utils.py:63 | every averaged row carries the tag of the model types in any order |
| Ensemble.GroupRow | src/predictions/ensemble_utils.py:52-71 | each row of the result is its non-empty group combined, with the tag of the model types |
| Ensemble.CombineBetween | src/predictions/ensemble_utils.py:52-70 | a group's averaged stat lies within its members' range, widened by the half-unit of rounding to one decimal |
| Ensemble.StatBetweenMembers | src/predictions/ensemble_utils.py:52-70 | each averaged stat of the result lies between its group's smallest and largest value, up to the half-unit of rounding to one decimal |
| Ensemble.ConfidenceNearMean | src/predictions/ensemble_utils.py:60-71 | the confidence is an integer within one half of the group's mean confidence |
| Ensemble.CombineSingle | src/predictions/ensemble_utils.py:52-70 | a one-row group keeps that row's stat, rounded to one decimal |
| Ensemble.SingleMemberKept | src/predictions/ensemble_utils.py:52-70 | a group with a single model's row keeps that row's stats, rounded to one decimal |
| EnsemblePredictor.Available | src/predictions/predict_games.py:31-35 | at most one prediction per selected name, and none at all exactly when no selected name is a loaded model |
| EnsemblePredictor.SimpleAverage | src/predictions/predict_games.py:27-42 | `ValueError` is raised exactly when no selected name is a loaded model; otherwise every selected name gets a weight |
| EnsemblePredictor.PredictSimpleAverage | src/predictions/predict_games.py:27-42 | the loop over the selected names, or over every model when none are selected, gives the simple-average outcome |
| EnsemblePredictor.SimpleAverageBetween | src/predictions/predict_games.py:37-42 | the simple average lies within the range of the loaded selected models' predictions |
| EnsemblePredictor.RawWeights | src/predictions/predict_games.py:48-54 | a raw weight is kept exactly for each selected name that is a loaded model |
| EnsemblePredictor.WeightedAverage | src/predictions/predict_games.py:44-68 | a loaded selected model with a validation MAE of 0 raises `ZeroDivisionError`; otherwise no loaded selected model raises `ValueError`; a result has one weight per loaded selected model |
| EnsemblePredictor.PredictWeightedAverage | src/predictions/predict_games.py:44-68 | the two loops give the weighted-average outcome, the raising cases included |
| EnsemblePredictor.BuildWeights | src/predictions/predict_games.py:48-56 | the first loop raises exactly when a loaded selected model has a validation MAE of 0, and otherwise builds the raw weights and their sum, counting each model once |
| EnsemblePredictor.SumWeighted | src/predictions/predict_games.py:59-68 | the second loop appends one term per loaded selected name and sums prediction times normalised weight |
| EnsemblePredictor.NoneAvailableIffNoWeights | src/predictions/predict_games.py:48-66 | no prediction is appended exactly when no weight was built |
| EnsemblePredictor.RawPositive | src/predictions/predict_games.py:50-54 | a positive validation MAE, or none at all, gives a positive weight |
| EnsemblePredictor.WeightedAverageBetween | src/predictions/predict_games.py:44-68 | with positive MAEs, distinct selected names and one loaded selected model, the weighted average is defined and lies within the range of those models' predictions |
| EnsemblePredictor.CustomAverage | src/predictions/predict_games.py:70-83 | `ValueError` is raised exactly when there are no weights, or they have a non-zero total and name no loaded model; a result has one normalised weight per named model |
| EnsemblePredictor.PredictCustom | src/predictions/predict_games.py:70-83 | the sum and the loop over the normalised weights give the custom-average outcome, the raising cases included |
| EnsemblePredictor.SumCustom | src/predictions/predict_games.py:71 | the loop gives the total of the custom weights |
| EnsemblePredictor.SumCustomPredictions | src/predictions/predict_games.py:74-83 | nothing is appended exactly when no weighted name is a loaded model, and the sum is prediction times normalised weight over the loaded names |
| EnsemblePredictor.CustomAverageUniform | src/predictions/predict_games.py:70-83 | when every loaded model predicts the same value, the custom average is that value times the loaded models' share of the total weight, so weight on a missing model pulls the prediction towards 0 |
| EnsemblePredictor.CustomAverageBetween | src/predictions/predict_games.py:70-83 | with positive weights on loaded models only, the custom average is defined and lies within their predictions' range |
| WeightedSums.WeightedTotalIsRatio | src/predictions/predict_games.py:57-68 | normalising every weight before summing equals dividing the weighted sum by the total once |
| WeightedSums.ProductAbove | src/predictions/predict_games.py:56-68 | with positive weights on loaded names, the weighted sum is at least the total weight times any lower bound of the predictions |
| WeightedSums.ProductBelow | src/predictions/predict_games.py:56-68 | with positive weights on loaded names, the weighted sum is at most the total weight times any upper bound of the predictions |
| WeightedSums.TotalPositive | src/predictions/predict_games.py:56 | positive weights have a positive total as soon as one name carries a weight |
| WeightedSums.RatioBetween | src/predictions/predict_games.py:56-68 | normalised positive weights form a convex combination, which stays within the predictions' range |
| WeightedSums.Loaded | src/predictions/predict_games.py:76 | exactly the weights of names that have a loaded model, unchanged |
| WeightedSums.WeightedUniform | src/predictions/predict_games.py:71-83 | when every loaded name predicts the same value, the normalised sum is that value times the loaded share of the total weight |
| OnlineFeatures.Window | src/predictions/predict_games.py:748-749 | a window holds as many games as its length, or all the prior games when there are fewer |
| OnlineFeatures.WindowIsNewest | src/predictions/predict_games.py:735-749 | with the games newest first, no game left out of a window is newer than one kept in it |
| OnlineFeatures.Weights | src/predictions/predict_games.py:757-758 | one weight per game of the window |
| OnlineFeatures.WeightsSumToOne | src/predictions/predict_games.py:757-758 | the normalised decay weights sum to 1 |
| OnlineFeatures.WeightsGrowWithAge | src/predictions/predict_games.py:757-758 | the weights are positive and grow strictly from the newest game to the oldest, because the factors are reversed over a newest-first window |
| OnlineFeatures.WeightedMeanBetween | src/predictions/predict_games.py:754-762 | a weighted mean stays between the smallest and the largest value of its window |
| OnlineFeatures.GuardedRatio | src/predictions/predict_games.py:826-904 | with a positive denominator the ratio times the denominator is the numerator; otherwise it is the fallback |
| OnlineFeatures.Per36 | src/predictions/predict_games.py:860-866 | with minutes played the rate times the minutes is 36 times the stat total; without minutes it is 0 |
| OnlineFeatures.ReboundRateIsPer36 | src/predictions/predict_games.py:894-897 | the rebound rate equals the rebounds per 36 minutes |
| OnlineFeatures.WindowOf | src/predictions/predict_games.py:748-904 | a window's features record its size and hold seven means, seven weighted means and seven per-36 rates |
| OnlineFeatures.RatiosGuarded | src/predictions/predict_games.py:826-904 | no ratio divides by zero: percentages, points per shot, rebound rate and per-36 rates are 0 without a denominator, and assists per turnover and points per assist fall back to the numerator total |
| OnlineFeatures.PositionOf | src/predictions/predict_games.py:1011-1037 | a center exactly when the position names a center and neither a guard nor a forward; a forward exactly when not a center and the position names a forward; otherwise a guard, and always a guard without a player row |
| OnlineFeatures.OneHot | src/predictions/predict_games.py:1013-1037 | exactly one of the three position flags is 1, and it is the one of the position |
| OnlineFeatures.StarLoop | src/predictions/predict_games.py:1104-1146 | the flags are set exactly when some star teammate is out and then come from the first one who is; otherwise they stay zero |
| OnlineFeatures.AltitudeOf | src/predictions/predict_games.py:1083-1087 | when the altitude is recorded, the away flag is set exactly for an away game above 3000 feet |
| OnlineFeatures.Windows | src/predictions/predict_games.py:748-904 | there are three windows, of lengths 5, 10 and 20, each cut to the number of prior games |
| OnlineFeatures.BuildWindows | src/predictions/predict_games.py:748-904 | the loop over the window lengths builds the three windows |
| OnlineFeatures.FeaturesOf | src/predictions/predict_games.py:704-961 | no features exactly when there are fewer than five prior games; otherwise `games_played_season` is the number of prior games, between 5 and 20, and the back-to-back flag is set exactly when the rest is one day |
| OnlineFeatures.DaysRestIsSmallestGap | src/predictions/predict_games.py:952-956 | the days of rest are the smallest gap to any prior game and at least one day when every prior game is before the target date |
| OnlineFeatures.NewTeamPenaltyNeverApplies | src/predictions/predict_games.py:269-272 | the confidence score's new-team penalty never applies to a feature row built here, because its `games_played_season` is at least five |
| OnlineFeatures.BuildFeaturesForPlayer | src/predictions/predict_games.py:704-1146 | the feature row the function fills step by step is the one the specification gives, with three windows cut to the prior games |
| OnlineFeatures.ModelInput | src/predictions/predict_games.py:493-562 | a model column is dropped exactly when it is missing from the features and names an id; a present feature value is passed on unchanged |
| OnlineFeatures.MissingAgreesWithNanFill | src/predictions/predict_games.py:495-562 | a missing column ends up with exactly the value a NaN cell of that column is filled with |
| OnlineFeatures.AlignFeatures | src/predictions/predict_games.py:493-529 | the input row's columns are exactly `Surviving`: the model's columns that are not dropped, in the model's order, each with its model input value |
| OnlineFeatures.Surviving | src/predictions/predict_games.py:493-529 | an order-keeping filter of the model's columns: a column is in it exactly when it is a model column that is among the features or names no id, and it is never longer than the model's list |
| OnlineFeatures.AllSurvive | src/predictions/predict_games.py:493-529 | when every model column reaches the model, the row has exactly the model's columns in the model's order |
| OnlineFeatures.SurvivingConcat | src/predictions/predict_games.py:529 | the filter works column by column: the surviving columns of a concatenation are those of each part in turn |
| OnlineFeatures.StoredPrediction | src/predictions/predict_games.py:572-578 | a stored prediction is never negative, is 0 when the model gives nothing positive or raises, and otherwise lies within 0.05 of the prediction |
| DatabaseStructure.FormatDataType | src/database/analyze_database_structure.py:195-240 | VARCHAR and CHAR are bare exactly when there is no length; DECIMAL is bare exactly when there is no precision; each listed name renders as its token and any other name upper-cased |
| DatabaseStructure.FormatIsUpperCase | src/database/analyze_database_structure.py:195-240 | every rendered type name is free of lower-case letters, whatever name it came from |
| DatabaseStructure.VarcharReadsBack | src/database/analyze_database_structure.py:201-203 | the length written inside "VARCHAR(n)" parses back as n |
| DatabaseStructure.CharReadsBack | src/database/analyze_database_structure.py:205-207 | the length written inside "CHAR(n)" parses back as n |
| DatabaseStructure.DecimalReadsBack | src/database/analyze_database_structure.py:209-211 | the precision and scale written inside "DECIMAL(p,s)" split on the comma and parse back as p and s |
| DatabaseStructure.DecimalPrecisionOnlyReadsBack | src/database/analyze_database_structure.py:212-213 | with a precision and a NULL or zero scale the type is "DECIMAL(p)": no comma, and the number inside parses back as p |
| DatabaseStructure.ColumnProps | src/database/analyze_database_structure.py:279-285 | PRIMARY KEY is listed exactly for a primary-key column and first, NOT NULL exactly when `is_nullable` is 'NO' and after it, the default last when there is one, and nothing else: one entry per property that applies, so none repeats |
| DatabaseStructure.PropSuffix | src/database/analyze_database_structure.py:287 | the suffix is empty exactly when there are no properties, and is otherwise bracketed after a space |

## Left out

- Network requests, SQL execution, commits, retries' sleeps, logging and
  progress output: the answers are inputs and the writes are returned values
  or class state.
- React state, effects, the health check, online/offline listeners and
  timers of the web app: only the logic the handlers and effects run is
  modelled.
- JavaScript `Date` and date-fns: dates are given as 'yyyy-MM-dd' strings
  or day numbers, and the clock is a parameter.
- react-query's caching and refetching: the query answers are parameters.
- `formatBytes` and its `Math.log`, and the days-ago column of the cache
  dialog: they need floating point and the clock.
- `localeCompare` and the engine's `sort`: orders are given by explicit
  predicates, and only membership is modelled where the source sorts.
- The order in which IndexedDB's `getAll` returns entries: stores are maps.
- A `Blob`'s byte size: the size of a stored entry is a parameter.
- `CacheStore.CacheManager.Cleanup`: with the 'off' setting the source
  builds an invalid date, whose `toISOString` throws inside the `try`, so
  nothing is deleted. The model states that as "nothing is deleted"
  without modelling the exception.
- LocalStorageCleanup.LocalStorage.CleanupLocalStorage: applies the corrected
  ownership test of the finding below, not the last-piece comparison as
  written. The two agree for user ids without '-' (`LocalStorageCleanup.RulesAgree`).
- The metadata store is only ever cleared, so the model keeps no contents
  for it.
- The `Array.from` copy in the model-performance delete handler: the model
  works on the set of selected keys.
- Python's `repr` of a float: a float cell carries its text with it.
- `int()` on strings with underscores, and `float()` on "nan" or "inf":
  only signs, digits and a decimal fraction are modelled.
- Floats are exact reals: no rounding error is modelled, and `round` is
  exact round-half-to-even.
- Case mapping only covers ASCII letters.
- NaN in stat columns, including the `dropna` at
  src/models/train_xgboost.py:41 and src/models/tune_hyperparameters.py:193.
- `CollectGames.CollectGames`: after a failed insert the source rolls back,
  which also discards earlier uncommitted inserts. The model drops only
  the failed game.
- `BoxScore.LoadRow`: an INSERT that raises is not modelled.
- `FormatStat` and property names inherited from `Object.prototype`: the
  model treats every stat key as an own property.
- The HTML scraping and link discovery of
  src/data_collection/collect_schedule_html.py:129-330: the page text and
  the pattern's matches are inputs.
- The unused `header_map.get(None)` path of the schedule fallback.
- `np.polyfit` slopes and `np.exp` decay factors are inputs.
- Model fitting and prediction, `StandardScaler`, feature importances and
  saving models and JSON files.
- Optuna's search strategy and the internals of scikit-learn's
  `TimeSeriesSplit`: only the choice of split scheme is modelled.
- `get_available_model_types` (src/predictions/ensemble_utils.py:79-91):
  it only lists the model versions stored in the database.
- The `AVG` query of the evaluation metrics: its result is an input, and
  the overall error is taken to be non-NULL.
- The `players` join in the recovery and injured-star queries, and in the
  star and teammate queries of src/data_collection/calculate_teammate_dependency.py
  (lines 11-20 and 57-66). Box-score rows are stored only for known players,
  so the join drops no row.
- The team, opponent and position-defence lookups and
  `get_top_features_with_impact` of src/predictions/predict_games.py.
- The information_schema queries of
  src/database/analyze_database_structure.py.

## Findings

| source | as written | input that shows it | evidently intended | confidence | as-written member | corrected member |
|---|---|---|---|---|---|---|
| app/src/lib/localStorageCleanup.ts:31-34 | compares only the last '-' piece of a notification key with the signed-in user's id | user id "a-b" and key "courtvision-notified-pick-results-a-b": the last piece "b" differs from "a-b", so the user's own key is removed | keep every key ending in "-" followed by the user's id | not executed | LocalStorageCleanup.OwnKeyRemoved | LocalStorageCleanup.OwnKeyKept |
