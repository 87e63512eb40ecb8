# MBO evaluation manager: the data repository and UI helpers in Dafny

This project models the core of an MBO (management by objectives)
evaluation tool in Dafny. Each evaluation period holds weighted goals. Each
goal has achievement items, and each item carries a percentage. A goal's
cached total is the item percentages summed and capped at 100. The overall
achievement rate is the weight-averaged total.

The model covers two source files.

- `models/data_manager.py`: the `DataManager` repository. It holds one JSON
  document in memory (`self.data`) and changes it in place. Its operations
  are:
  - creating periods and choosing the current one;
  - adding and deleting goals;
  - adding, editing and deleting achievement items, each followed by a
    recalculation of the capped total;
  - the `get_achievements` getter, which also inserts missing entries;
  - the weighted achievement rate and the statistics;
  - the v1 to v2 data migration;
  - the two CSV exports, modelled as rows of abstract cells.
- `ui/helpers.py`: the pure helpers `truncate_text`, `get_progress_color`,
  `get_achievement_status` and `edit_mode_key`, and the edit-mode flags and
  `session_state_manager`. Streamlit's `st.session_state` is modelled as a
  map held by a small class.

Modules:

| file | module | contents |
|---|---|---|
| `wrappers.dfy` | `Wrappers` | `Option` |
| `keyed.dfy` | `Keyed` | lists of records keyed by a string id: membership, first match, removal of every match |
| `achievements.dfy` | `Achievements` | items, an achievement entry, the capped total and the cached-total invariant |
| `periods.dfy` | `Periods` | goals, periods, the document, the current-period lookup, the entry fill done by `get_achievements`, and the rate and statistics as folds |
| `migration.dfy` | `Migration` | the v1 document, the migration as a specification and as a loop, and the version dispatch of `load_data` |
| `csv_export.dfy` | `CsvExport` | the row structure of both CSV exports and the set of exportable periods |
| `data_manager.dfy` | `Manager` | the `DataManager` class: every mutator and getter as a method over the `data` field, plus the exports' and the rate's loops |
| `ui_helpers.dfy` | `UiHelpers` | the helpers and the `SessionState` class |

The mutators are methods with `modifies this`. Each states the new document
in terms of the old one and what a successful save leaves in the data file.
Each also states that two invariants are kept: the cached-total invariant
`DocumentValid`, and `RefIntegrity`, under which every period's achievement
map has an entry for exactly the goals in its goal list. `RefIntegrity` is
only an invariant of the mutators: a document read from disk need not
satisfy it, since a v1 file may hold texts for goals it no longer lists. The loops (`update_achievement_item`'s search,
`get_achievements`'s fill, the rate and statistics accumulators, the
migration, the exports) are proved against specification functions. The
properties the source promises are then lemmas about those functions.

## Model

| member | source | states |
|---|---|---|
| Keyed.RemoveKey | models/data_manager.py:157 | removing by id keeps exactly the records whose id differs, never adds one, and leaves no record with that id |
| Keyed.FirstIndex | models/data_manager.py:205-212 | the position the `for … else` search stops at: a record with the id, and no record before it has that id |
| Keyed.RemoveAbsent | models/data_manager.py:157 | removing an id no record has changes nothing |
| Keyed.RemoveDistributes | models/data_manager.py:157 | removal filters each part of a list independently, so the survivors keep their relative order |
| Keyed.RemoveIdempotent | models/data_manager.py:226-229 | removing the same id twice is the same as removing it once |
| Keyed.RemoveAfterAppend | models/data_manager.py:226-229 | deleting a just-appended record with a fresh id restores the list as it was |
| Achievements.CappedTotal | models/data_manager.py:242-246 | the total never exceeds 100 or the item sum; it equals the sum when the sum is at most 100 and is exactly 100 when the sum exceeds 100 |
| Achievements.Recalculated | models/data_manager.py:236-248 | the recalculated entry keeps its items and satisfies the cached-total invariant |
| Achievements.SumAppend | models/data_manager.py:243 | the item sum of a concatenation is the sum of the parts' sums |
| Achievements.SumNonNegative | models/data_manager.py:243 | items with non-negative percentages have a non-negative sum |
| Achievements.TotalInRange | models/data_manager.py:236-248 | a consistent entry of non-negative items has a total between 0 and 100 |
| Achievements.TotalAfterAppend | models/data_manager.py:189-192 | appending an item adds its percentage to the sum, and a non-negative item never lowers the capped total |
| Achievements.SumAfterReplace | models/data_manager.py:205-212 | editing item i changes the sum by the new minus the old percentage |
| Achievements.SumAfterRemove | models/data_manager.py:226-229 | deleting items of non-negative percentage never raises the sum |
| Periods.CurrentName | models/data_manager.py:111-115 | a name is returned exactly when `current_period` is set, non-empty and names a stored period, and it is then that name |
| Periods.CurrentPeriodData | models/data_manager.py:111-115 | there is a current period exactly when `current_period` is set, non-empty and names a stored period, and then it is that period |
| Periods.WithAchievementTwice | models/data_manager.py:182-192 | writing a goal's entry keeps the current period, and a second write to the same entry replaces the first |
| Periods.WithAchievementSame | models/data_manager.py:236-248 | writing back the entry already stored leaves the document as it was |
| Periods.Filled | models/data_manager.py:262-269 | the fill keeps every existing entry, gives every goal an entry, and adds only empty entries for listed goals |
| Periods.FilledNoop | models/data_manager.py:262-269 | when every goal already has an entry, the fill changes nothing |
| Periods.FilledIdempotent | models/data_manager.py:262-269 | filling twice is the same as filling once |
| Periods.FilledDocument | models/data_manager.py:255-271 | without a current period nothing changes; otherwise only the current period changes, and only its map, which becomes the fill of its goals over its stored entries; the current period, its goals, the settings and the version are kept |
| Periods.FilledDocumentIdempotent | models/data_manager.py:255-271 | repeating `get_achievements` changes nothing more |
| Periods.FilledDocumentValid | models/data_manager.py:255-271 | the entries the fill inserts keep the cached-total invariant |
| Periods.FilledDocumentLinked | models/data_manager.py:264-269 | the entries the fill inserts are for listed goals, so goal list and entries still match |
| Periods.AddGoalLinked | models/data_manager.py:140-146 | appending a goal with an empty entry keeps goal list and entries matched |
| Periods.DeleteGoalLinked | models/data_manager.py:157-161 | removing a goal from the list and its entry from the map keeps them matched |
| Periods.WithAchievementLinked | models/data_manager.py:177-191 | writing the entry of a listed goal keeps goal list and entries matched |
| Periods.FillKeepsProgress | models/data_manager.py:295 | an inserted empty entry reads exactly like the defaults for a missing entry (here and in the statistics loop, lines 480-481), so the fill changes no aggregate |
| Periods.PrefixStep | models/data_manager.py:294-299 | one pass of the accumulator loops adds one goal's term to each of the running sums and counts |
| Periods.CountsPartition | models/data_manager.py:485-488 | every goal is exactly one of completed, partial or not started |
| Periods.AllCompletedIff | models/data_manager.py:485-486 | the completed count equals the number of goals exactly when every goal is at 100% or more |
| Periods.WeightedSumBounds | models/data_manager.py:294-299 | with non-negative weights and totals in [0, 100], the weighted sum lies between 0 and 100 times the total weight |
| Periods.AchievementRate | models/data_manager.py:283-301 | the rate is 0.0 without goals or without positive total weight; otherwise the rate times the total weight is the weighted sum |
| Periods.StatisticsOf | models/data_manager.py:460-500 | the figures are the goal count, the fold counts, total weight, rate and item total, the shortcut for no goals included; completed plus partial never exceeds the goal count |
| Periods.AchievementRateBounds | models/data_manager.py:283-301 | under the same conditions, the achievement rate lies in [0, 100] |
| Periods.WeightedSumUniform | models/data_manager.py:294-299 | when all goals have the same total p, the weighted sum is p times the total weight |
| Periods.AchievementRateUniform | models/data_manager.py:283-301 | when all goals have the same total p and the total weight is positive, the rate is p whatever the weights |
| Periods.AllCompletedRate | models/data_manager.py:283-301 | when every goal is completed and the total weight is positive, the rate is exactly 100 |
| Periods.CurrentRateInRange | models/data_manager.py:283-301 | a document satisfying the invariant, with non-negative weights and item percentages, has a current rate in [0, 100] |
| Migration.MigrateV1ToV2 | models/data_manager.py:49-87 | the loop over periods and goal texts builds exactly the migrated document |
| Migration.MigratePeriodAchievements | models/data_manager.py:64-82 | the inner loop builds exactly one migrated entry per legacy goal text |
| Migration.Migrated | models/data_manager.py:49-87 | the upgraded document has version "2.0", the same period names, `current_period` and settings, and each period keeps its goal list and the goal ids of its texts |
| Migration.MigratedShape | models/data_manager.py:64-82 | a non-blank text becomes one 100% item with total 100; a blank text becomes no items with total 0 |
| Migration.MigratedValid | models/data_manager.py:64-82 | every migrated entry satisfies the cached-total invariant |
| Migration.MigrateExample | models/data_manager.py:67-82 | the text "Shipped v1" becomes a single 100% item; the empty text becomes an empty entry |
| Migration.Loaded | models/data_manager.py:31-47 | a missing or unparseable file gives the default document, with no periods and no current period; a v1 file gives exactly the migrated document (version "2.0", same period names); a v2 document is used as it is |
| CsvExport.DatePart | models/data_manager.py:383 | the date column is the first 10 characters of a longer timestamp and the whole of a shorter one |
| CsvExport.ResolvePeriod | models/data_manager.py:339-343 | without a name the current period is used; a given name resolves exactly when it is non-empty and stored, and then to itself |
| CsvExport.DetailsOf | models/data_manager.py:367-369 | there is one detail entry per item |
| CsvExport.DetailsOfEntry | models/data_manager.py:367-369 | the k-th detail entry is numbered k+1 and carries the k-th item's content and percentage |
| CsvExport.SummaryBody | models/data_manager.py:360-384 | the summary has exactly one data row per goal |
| CsvExport.SummaryBodyRow | models/data_manager.py:360-384 | the k-th summary row is the row of the k-th goal, so goal order is kept |
| CsvExport.ItemRows | models/data_manager.py:420-435 | a goal with items gets one row per item |
| CsvExport.ItemRowsEntry | models/data_manager.py:422-435 | the k-th detailed row of a goal is the row of its k-th item, so item order is kept |
| CsvExport.DetailedBody | models/data_manager.py:414-450 | the detailed export has Σ max(1, item count) data rows, so at least one per goal |
| CsvExport.DetailedBodyAppend | models/data_manager.py:414-450 | the detailed rows of a goal list are the rows of its parts concatenated, so goal order is kept |
| CsvExport.SummaryExport | models/data_manager.py:334-386 | the export is empty exactly for an unknown, null or empty period; otherwise it is the header and one row per goal |
| CsvExport.DetailedExport | models/data_manager.py:388-452 | the export is empty exactly for an unknown, null or empty period; otherwise it is the header and Σ max(1, item count) rows |
| CsvExport.SummaryOfGoalWithoutItems | models/data_manager.py:371 | a goal without items has item count 0 and "未記入" in the summary, and exactly one placeholder row in the detailed export |
| CsvExport.AvailablePeriods | models/data_manager.py:454-458 | the exportable periods are the stored periods that have at least one goal |
| CsvExport.AvailableIffSummaryHasRows | models/data_manager.py:454-458 | a named period is offered for export exactly when its summary export has a data row |
| Manager.DataManager.constructor | models/data_manager.py:16-47 | the repository starts from the stored document as `load_data` reads it; only a v1 file is written back |
| Manager.DataManager.SaveData | models/data_manager.py:89-97 | the document is unchanged, and after a successful write the file holds it |
| Manager.DataManager.CreatePeriod | models/data_manager.py:99-109 | a non-empty, new name becomes an empty period and the current one; any other name fails and changes nothing; both invariants are kept |
| Manager.DataManager.SetCurrentPeriod | models/data_manager.py:117-122 | only a stored period becomes current; any other name fails and changes nothing; both invariants are kept |
| Manager.DataManager.AddGoal | models/data_manager.py:124-148 | without a current period it fails and changes nothing; otherwise the goal is appended and gets an empty entry; both invariants are kept |
| Manager.DataManager.DeleteGoal | models/data_manager.py:150-163 | every goal with the id is removed, the rest keep their order, and the goal's entry is dropped; an absent id is not an error; both invariants are kept |
| Manager.DataManager.RecalculateGoalPercentage | models/data_manager.py:236-248 | the entry's total becomes the capped item sum; without a current period or entry nothing changes; both invariants are kept |
| Manager.DataManager.AddAchievementItem | models/data_manager.py:165-196 | for a goal of the current period, the item is appended last and the total recalculated; otherwise it fails and changes nothing; both invariants are kept |
| Manager.DataManager.UpdateAchievementItem | models/data_manager.py:198-217 | only the first item with the id is edited, all others stay in place, and the total is recalculated; a missing entry or item fails and changes nothing; both invariants are kept |
| Manager.DataManager.DeleteAchievementItem | models/data_manager.py:219-234 | every item with the id is removed, the rest keep their order, and the total is recalculated; an absent id leaves a consistent entry unchanged; both invariants are kept |
| Manager.DataManager.GetAchievements | models/data_manager.py:255-271 | returns the current entries after the fill, with an entry for every current goal, and stores the filled map; both invariants are kept |
| Manager.FillEntries | models/data_manager.py:264-269 | the fill loop builds exactly the filled map |
| Manager.DataManager.CalculateAchievementRate | models/data_manager.py:283-301 | returns the weighted average of the current goals' totals, computed as if before the fill |
| Manager.DataManager.GetStatistics | models/data_manager.py:460-500 | returns the goal count, completed and partial counts, total weight, rate and item count of the current period |
| Manager.DataManager.ExportCsvSummary | models/data_manager.py:334-386 | returns exactly the summary export's rows |
| Manager.DataManager.ExportCsvDetailed | models/data_manager.py:388-452 | returns exactly the detailed export's rows |
| Manager.WeightedAverage | models/data_manager.py:287-301 | the accumulator loop computes the weighted average of the goals' totals, or 0.0 without positive total weight |
| Manager.Tally | models/data_manager.py:479-488 | the counting loop yields the completed count, the partial count and the total number of items |
| Manager.SummaryRows | models/data_manager.py:360-384 | the summary loop builds one row per goal, in goal order |
| Manager.SummaryRowOf | models/data_manager.py:361-384 | one goal's summary row: its columns, total, item count, numbered details or "未記入", and creation date |
| Manager.NumberedDetails | models/data_manager.py:367-369 | the enumeration loop numbers the item details from 1 |
| Manager.DetailedRows | models/data_manager.py:414-450 | the detailed loop builds each goal's rows in goal order |
| Manager.RowsOfGoal | models/data_manager.py:416-450 | one goal gets its item rows, or the placeholder row when it has no items |
| Manager.GoalItemRows | models/data_manager.py:422-435 | the item loop builds one row per item, in item order |
| UiHelpers.TruncateText | ui/helpers.py:86-91 | a text no longer than the limit is returned unchanged; a longer one keeps its first `max_length` characters and ends in "...", so it is `max_length + 3` long; a negative limit slices from the end |
| UiHelpers.TruncateKeepsPrefix | ui/helpers.py:86-91 | a truncated text is always a prefix of the original followed by "..." |
| UiHelpers.TruncateDefault | ui/helpers.py:86-91 | with the default limit of 20, a short text is unchanged and a longer one is its first 20 characters followed by "..."; never more than 23 characters |
| UiHelpers.TruncateIdempotent | ui/helpers.py:86-91 | truncating again to the same non-negative limit changes nothing |
| UiHelpers.ProgressColor | ui/helpers.py:74-84 | "success" exactly from 100 up, "info" exactly in [50, 100), "warning" exactly in (0, 50), "normal" exactly at 0 or below |
| UiHelpers.ProgressColorMonotone | ui/helpers.py:74-84 | more progress never gives a lower colour |
| UiHelpers.AchievementStatus | ui/helpers.py:62-72 | completed exactly from 100 up, in progress in [50, 100), started in (0, 50), not started at 0 or below; the shown percentage is the input |
| UiHelpers.StatusAgreesWithProgressColor | ui/helpers.py:62-84 | the status and the progress colour use the same thresholds: the status colour, read as a progress band, is the progress colour |
| UiHelpers.StatusLabelIdentifiesEnds | ui/helpers.py:62-72 | whatever the number formatting, the label is "✅ 完了" exactly from 100 up and "⏳ 未着手" exactly at 0 or below |
| UiHelpers.EditModeKey | ui/helpers.py:100-103 | the key is "edit_mode_" followed by the entity id |
| UiHelpers.EditModeKeyInjective | ui/helpers.py:100-103 | different entities have different edit-mode keys |
| UiHelpers.WithEditMode | ui/helpers.py:110-118 | after the toggle the entity is in edit mode exactly when enabled, an enabled key holds true, and every other key and value is kept |
| UiHelpers.ToggleLeavesOthers | ui/helpers.py:105-118 | toggling one entity never changes another entity's edit mode |
| UiHelpers.DisableAbsentIsNoop | ui/helpers.py:115-118 | disabling an entity that is not in edit mode changes nothing |
| UiHelpers.EnableThenDisable | ui/helpers.py:110-118 | enabling and then disabling restores a state in which the entity was not in edit mode |
| UiHelpers.SessionState.constructor | ui/helpers.py:93-98 | a session starts with no keys |
| UiHelpers.SessionState.Manage | ui/helpers.py:93-98 | stores the default only for an absent key, leaves an existing value unchanged, and returns the stored value; an entity is in edit mode afterwards exactly when it was before or the key is its edit-mode key, so managing `edit_mode_key(x)` with any default turns edit mode on |
| UiHelpers.SessionState.ToggleEditMode | ui/helpers.py:105-118 | the session becomes the toggled map, so `is_edit_mode` afterwards equals `enable`, and every other entity keeps its edit mode |

## Left out

- File I/O and JSON are not modelled. `load_data` takes the file's content as a `StoredFile` value: missing, unparseable, v1 or v2. The file's content is a field of the repository. Whether `save_data` succeeds is nondeterministic; after a success the file holds the document, after a failure its content is unknown. As in the source, a failed save does not roll back the in-memory change.
- Migration.Loaded: the `StoredFile` tag stands for the version test of `load_data` (a missing or empty `version`, or "1.0", means v1). A `Current` document is taken as v2 whatever its `version` field holds, whereas the source would migrate one whose version is empty or "1.0".
- `export_data` and `import_data` are JSON serialisation of the whole document and are not modelled. Importing a v1 document would go through the same migration.
- `uuid.uuid4()` and `datetime.now().isoformat()` are parameters. Ids are passed in and timestamps are a `now` string. In the migration, `mintId(period, goal)` supplies item ids.
- Migration.Migrated: one `now` stands for every clock reading of a migration. The source reads the clock once per period (the default of `.get("created_at", ...)` is evaluated every time, and used only when the key is missing) and once per migrated item, so the timestamps within one migration may differ.
- Manager.DataManager.AddGoal: requires the new goal id to be fresh in the current period. This stands for `uuid.uuid4()` uniqueness. A colliding id would overwrite an existing entry in the source.
- Manager.DataManager.AddAchievementItem: requires the new item id to be fresh among the goal's items, for the same reason.
- Manager.DataManager.DeleteAchievementItem: "an absent id changes nothing" is stated for an entry whose cached total agrees with its items. An inconsistent entry would still get its total recalculated.
- Manager.DataManager.CalculateAchievementRate: the arithmetic is on exact reals, not IEEE doubles. Rounding, NaN and infinities are not modelled. The same applies to the item sum and `get_statistics`.
- CsvExport.AvailablePeriods: a set, not a list. The dictionary's insertion order of the periods is not modelled.
- The exports' `"{:.1f}"` formatting, the `" | "` join of the summary detail column and `csv.writer` quoting are not modelled. Cells are abstract: a text, an integer, a one-decimal percentage, or the numbered item details.
- Goals and items are records with all their fields present. A period or goal missing a key (`.get(..., default)` on an absent `achievements`, `description` or `created_at`) is not modelled, and neither are non-string legacy values. A legacy text that is `None` is treated like the empty text.
- `get_goals`, `get_goal_achievement_items` and `get_goal_total_percentage` are not separate methods. Their lookups are `CurrentGoals`, `GoalItems` and `GoalTotal`, which the rate, the statistics and the exports use.
- `get_claude_api_key`, `set_claude_api_key` and `get_period_list` are one-line reads and writes of the settings and of the period names. They are not modelled.
- The validation bounds of the settings module (weight 1 to 10, percentage 0 to 100) are not checked by the repository. They appear only as preconditions of the range lemmas: `AchievementRateBounds`, `CurrentRateInRange`, `TotalInRange`.
- The Streamlit rendering in `ui/helpers.py` is not modelled: the metric card, the message boxes and the `format_*` helpers. The `"{:.1f}"` formatting inside the status label is a parameter.
