/**
 * `DataManager` of models/data_manager.py: the repository object that holds
 * the document (`self.data`) and changes it in place.  Every mutator ends by
 * writing the whole document; the write's outcome is the method's result, and
 * the in-memory change is not rolled back when the write fails.
 */
module Manager {
  import opened Wrappers
  import opened Keyed
  import opened Achievements
  import opened Periods
  import opened Migration
  import opened CsvExport

  class DataManager {
    var data: Document
    /** The content of the data file (`self.data_file`). */
    var file: StoredFile

    /**
     * `__init__` / `load_data()`: the document read from the data file,
     * migrated when it is v1; a migrated document is written back at once.
     */
    constructor(stored: StoredFile, now: string, mintId: (string, GoalId) -> ItemId)
      ensures data == Loaded(stored, now, mintId)
      ensures !stored.Legacy? ==> file == stored
    {
      match stored {
        case NoFile =>
          data := DefaultDocument();
        case Unparseable =>
          data := DefaultDocument();
        case Legacy(legacy) =>
          var migrated := MigrateV1ToV2(legacy, now, mintId);
          data := migrated;
        case Current(doc) =>
          data := doc;
      }
      file := stored;
      new;
      if stored.Legacy? {
        var _ := SaveData();
      }
    }

    /**
     * `save_data()`: writes the document to the data file.  Whether the write
     * succeeds is outside the model; after a failed write the file's content
     * is unknown (it was opened for writing, so it may be truncated).
     */
    method SaveData() returns (ok: bool)
      modifies this
      ensures data == old(data)
      ensures ok ==> file == Current(data)
    {
      ok := *;
      if ok {
        file := Current(data);
      } else {
        file := *;
      }
    }

    /**
     * `create_period(name)`: a non-empty, new name becomes an empty period and
     * the current one; anything else fails and changes nothing.
     */
    method CreatePeriod(name: string, now: string) returns (ok: bool)
      modifies this
      ensures name != "" && name !in old(data).periods ==>
        data == old(data).(periods := old(data).periods[name := NewPeriod(now)], currentPeriod := Some(name))
        && CurrentPeriodData(data) == Some(NewPeriod(now))
      ensures !(name != "" && name !in old(data).periods) ==> !ok && data == old(data) && file == old(file)
      ensures DocumentValid(old(data)) ==> DocumentValid(data)
      ensures RefIntegrity(old(data)) ==> RefIntegrity(data)
      ensures ok ==> file == Current(data)
    {
      if name != "" && name !in data.periods {
        data := data.(periods := data.periods[name := NewPeriod(now)], currentPeriod := Some(name));
        ok := SaveData();
      } else {
        ok := false;
      }
    }

    /** `set_current_period(name)`: only an existing period can become current. */
    method SetCurrentPeriod(name: string) returns (ok: bool)
      modifies this
      ensures name in old(data).periods ==> data == old(data).(currentPeriod := Some(name))
      ensures name !in old(data).periods ==> !ok && data == old(data) && file == old(file)
      ensures DocumentValid(old(data)) ==> DocumentValid(data)
      ensures RefIntegrity(old(data)) ==> RefIntegrity(data)
      ensures ok ==> file == Current(data)
    {
      if name in data.periods {
        data := data.(currentPeriod := Some(name));
        ok := SaveData();
      } else {
        ok := false;
      }
    }

    /**
     * `add_goal(...)`: appends the goal to the current period and gives it an
     * empty achievement entry; fails without a current period.  The id is
     * fresh, as `uuid.uuid4()` is.
     */
    method AddGoal(goalId: GoalId, title: string, weight: int, deadline: string, description: string, now: string)
      returns (ok: bool)
      requires CurrentName(data).Some? ==>
        !HasKey(data.periods[CurrentName(data).value].goals, GoalKey, goalId)
        && goalId !in data.periods[CurrentName(data).value].achievements
      modifies this
      ensures CurrentName(old(data)).None? ==> !ok && data == old(data) && file == old(file)
      ensures CurrentName(old(data)).Some? ==>
        var name := CurrentName(old(data)).value;
        var p := old(data).periods[name];
        data == WithPeriod(old(data), name, p.(
          goals := p.goals + [Goal(goalId, title, weight, deadline, description, now)],
          achievements := p.achievements[goalId := EmptyAchievement]))
      ensures DocumentValid(old(data)) ==> DocumentValid(data)
      ensures RefIntegrity(old(data)) ==> RefIntegrity(data)
      ensures ok ==> file == Current(data)
    {
      var current := CurrentName(data);
      if current.None? {
        return false;
      }
      var name := current.value;
      var p := data.periods[name];
      var goal := Goal(goalId, title, weight, deadline, description, now);
      if RefIntegrity(data) {
        AddGoalLinked(p, goal);
      }
      p := p.(goals := p.goals + [goal]);
      p := p.(achievements := p.achievements[goalId := EmptyAchievement]);
      data := WithPeriod(data, name, p);
      ok := SaveData();
    }

    /**
     * `delete_goal(goal_id)`: removes every goal with that id, keeping the
     * others in order, and the goal's achievement entry; an absent id is not
     * an error.  Fails only without a current period.
     */
    method DeleteGoal(goalId: GoalId) returns (ok: bool)
      modifies this
      ensures CurrentName(old(data)).None? ==> !ok && data == old(data) && file == old(file)
      ensures CurrentName(old(data)).Some? ==>
        var name := CurrentName(old(data)).value;
        var p := old(data).periods[name];
        data == WithPeriod(old(data), name, p.(
          goals := RemoveKey(p.goals, GoalKey, goalId),
          achievements := p.achievements - {goalId}))
      ensures DocumentValid(old(data)) ==> DocumentValid(data)
      ensures RefIntegrity(old(data)) ==> RefIntegrity(data)
      ensures ok ==> file == Current(data)
    {
      var current := CurrentName(data);
      if current.None? {
        return false;
      }
      var name := current.value;
      var p := data.periods[name];
      if RefIntegrity(data) {
        DeleteGoalLinked(p, goalId);
      }
      p := p.(goals := RemoveKey(p.goals, GoalKey, goalId));
      if goalId in p.achievements {
        p := p.(achievements := p.achievements - {goalId});
      } else {
        assert p.achievements - {goalId} == p.achievements;
      }
      data := WithPeriod(data, name, p);
      ok := SaveData();
    }

    /**
     * `_recalculate_goal_percentage(goal_id)`: sets the entry's total to the
     * capped sum of its items; does nothing without a current period or entry.
     */
    method RecalculateGoalPercentage(goalId: GoalId)
      modifies this
      ensures CurrentName(old(data)).Some? && goalId in old(data).periods[CurrentName(old(data)).value].achievements ==>
        var name := CurrentName(old(data)).value;
        data == WithAchievement(old(data), name, goalId, Recalculated(old(data).periods[name].achievements[goalId].items))
      ensures !(CurrentName(old(data)).Some? && goalId in old(data).periods[CurrentName(old(data)).value].achievements) ==>
        data == old(data)
      ensures DocumentValid(old(data)) ==> DocumentValid(data)
      ensures RefIntegrity(old(data)) ==> RefIntegrity(data)
      ensures file == old(file)
    {
      var current := CurrentName(data);
      if current.None? || goalId !in data.periods[current.value].achievements {
        return;
      }
      var name := current.value;
      var items := data.periods[name].achievements[goalId].items;
      var total := SumPercentages(items);
      total := if total <= 100.0 then total else 100.0;
      if DocumentValid(data) {
        RecalculatedKeepsValid(data, name, goalId, items);
      }
      if RefIntegrity(data) {
        WithAchievementLinked(data, name, goalId, Achievement(items, total));
      }
      data := WithAchievement(data, name, goalId, Achievement(items, total));
    }

    /**
     * `add_achievement_item(...)`: when the goal is in the current period's
     * goal list, appends the item at the end of its entry (creating the entry
     * if missing) and recomputes the capped total; otherwise fails and
     * changes nothing.  The item id is fresh, as `uuid.uuid4()` is.
     */
    method AddAchievementItem(goalId: GoalId, itemId: ItemId, content: string, percentage: real, now: string)
      returns (ok: bool)
      requires CurrentName(data).Some? ==>
        !HasKey(GoalItems(data.periods[CurrentName(data).value].achievements, goalId), ItemKey, itemId)
      modifies this
      ensures !(CurrentName(old(data)).Some? && HasKey(old(data).periods[CurrentName(old(data)).value].goals, GoalKey, goalId)) ==>
        !ok && data == old(data) && file == old(file)
      ensures CurrentName(old(data)).Some? && HasKey(old(data).periods[CurrentName(old(data)).value].goals, GoalKey, goalId) ==>
        var name := CurrentName(old(data)).value;
        var items := GoalItems(old(data).periods[name].achievements, goalId);
        data == WithAchievement(old(data), name, goalId, Recalculated(items + [Item(itemId, content, percentage, now, None)]))
      ensures DocumentValid(old(data)) ==> DocumentValid(data)
      ensures RefIntegrity(old(data)) ==> RefIntegrity(data)
      ensures ok ==> file == Current(data)
    {
      var current := CurrentName(data);
      if current.None? {
        return false;
      }
      var name := current.value;
      if !HasKey(data.periods[name].goals, GoalKey, goalId) {
        return false;
      }
      ghost var before := data;
      if goalId !in data.periods[name].achievements {
        data := WithAchievement(data, name, goalId, EmptyAchievement);
      }
      var entry := data.periods[name].achievements[goalId];
      assert entry.items == GoalItems(before.periods[name].achievements, goalId);
      var item := Item(itemId, content, percentage, now, None);
      var appended := entry.(items := entry.items + [item]);
      WithAchievementTwice(before, name, goalId, EmptyAchievement, appended);
      data := WithAchievement(data, name, goalId, appended);
      assert data == WithAchievement(before, name, goalId, appended);
      WithAchievementTwice(before, name, goalId, appended, Recalculated(appended.items));
      RecalculateGoalPercentage(goalId);
      assert data == WithAchievement(before, name, goalId, Recalculated(appended.items));
      if DocumentValid(before) {
        RecalculatedKeepsValid(before, name, goalId, appended.items);
      }
      if RefIntegrity(before) {
        WithAchievementLinked(before, name, goalId, Recalculated(appended.items));
      }
      ok := SaveData();
    }

    /**
     * `update_achievement_item(...)`: when the goal has an entry and some item
     * has `itemId`, the first such item gets the new content and percentage
     * and an update stamp, every other item stays as it was, and the total is
     * recomputed; otherwise fails and changes nothing.
     */
    method UpdateAchievementItem(goalId: GoalId, itemId: ItemId, content: string, percentage: real, now: string)
      returns (ok: bool)
      modifies this
      ensures !(CurrentName(old(data)).Some? && goalId in old(data).periods[CurrentName(old(data)).value].achievements
                && HasKey(old(data).periods[CurrentName(old(data)).value].achievements[goalId].items, ItemKey, itemId)) ==>
        !ok && data == old(data) && file == old(file)
      ensures CurrentName(old(data)).Some? && goalId in old(data).periods[CurrentName(old(data)).value].achievements
              && HasKey(old(data).periods[CurrentName(old(data)).value].achievements[goalId].items, ItemKey, itemId) ==>
        var name := CurrentName(old(data)).value;
        var items := old(data).periods[name].achievements[goalId].items;
        var i := FirstIndex(items, ItemKey, itemId);
        data == WithAchievement(old(data), name, goalId, Recalculated(items[i := items[i].Edited(content, percentage, now)]))
      ensures DocumentValid(old(data)) ==> DocumentValid(data)
      ensures RefIntegrity(old(data)) ==> RefIntegrity(data)
      ensures ok ==> file == Current(data)
    {
      var current := CurrentName(data);
      if current.None? || goalId !in data.periods[current.value].achievements {
        return false;
      }
      var name := current.value;
      var entry := data.periods[name].achievements[goalId];
      var items := entry.items;
      // Search for the first item with the id; running off the end is the failure case.
      var i := 0;
      while i < |items| && items[i].id != itemId
        invariant 0 <= i <= |items|
        invariant forall k :: 0 <= k < i ==> ItemKey(items[k]) != itemId
      {
        i := i + 1;
      }
      if i == |items| {
        return false;
      }
      assert i == FirstIndex(items, ItemKey, itemId);
      var edited := entry.(items := items[i := items[i].Edited(content, percentage, now)]);
      WithAchievementTwice(data, name, goalId, edited, Recalculated(edited.items));
      ghost var before := data;
      data := WithAchievement(data, name, goalId, edited);
      RecalculateGoalPercentage(goalId);
      assert data == WithAchievement(before, name, goalId, Recalculated(edited.items));
      if DocumentValid(before) {
        RecalculatedKeepsValid(before, name, goalId, edited.items);
      }
      if RefIntegrity(before) {
        WithAchievementLinked(before, name, goalId, Recalculated(edited.items));
      }
      ok := SaveData();
    }

    /**
     * `delete_achievement_item(goal_id, item_id)`: when the goal has an entry,
     * removes every item with `itemId`, keeping the rest in order, and
     * recomputes the total; an absent item id leaves a consistent entry as it
     * was.  Fails only without a current period or entry.
     */
    method DeleteAchievementItem(goalId: GoalId, itemId: ItemId) returns (ok: bool)
      modifies this
      ensures !(CurrentName(old(data)).Some? && goalId in old(data).periods[CurrentName(old(data)).value].achievements) ==>
        !ok && data == old(data) && file == old(file)
      ensures CurrentName(old(data)).Some? && goalId in old(data).periods[CurrentName(old(data)).value].achievements ==>
        var name := CurrentName(old(data)).value;
        var entry := old(data).periods[name].achievements[goalId];
        && data == WithAchievement(old(data), name, goalId, Recalculated(RemoveKey(entry.items, ItemKey, itemId)))
        && (!HasKey(entry.items, ItemKey, itemId) && Consistent(entry) ==> data == old(data))
      ensures DocumentValid(old(data)) ==> DocumentValid(data)
      ensures RefIntegrity(old(data)) ==> RefIntegrity(data)
      ensures ok ==> file == Current(data)
    {
      var current := CurrentName(data);
      if current.None? || goalId !in data.periods[current.value].achievements {
        return false;
      }
      var name := current.value;
      var entry := data.periods[name].achievements[goalId];
      if !HasKey(entry.items, ItemKey, itemId) {
        RemoveAbsent(entry.items, ItemKey, itemId);
        if Consistent(entry) {
          assert Recalculated(entry.items) == entry;
          WithAchievementSame(data, name, goalId);
        }
      }
      var remaining := entry.(items := RemoveKey(entry.items, ItemKey, itemId));
      WithAchievementTwice(data, name, goalId, remaining, Recalculated(remaining.items));
      ghost var before := data;
      data := WithAchievement(data, name, goalId, remaining);
      RecalculateGoalPercentage(goalId);
      assert data == WithAchievement(before, name, goalId, Recalculated(remaining.items));
      if DocumentValid(before) {
        RecalculatedKeepsValid(before, name, goalId, remaining.items);
      }
      if RefIntegrity(before) {
        WithAchievementLinked(before, name, goalId, Recalculated(remaining.items));
      }
      ok := SaveData();
    }

    /**
     * `get_achievements()`: the current period's achievement map after every
     * goal lacking an entry has been given an empty one (a getter that writes
     * to the document); an empty map without a current period.
     */
    method GetAchievements() returns (achievements: map<GoalId, Achievement>)
      modifies this
      ensures data == FilledDocument(old(data))
      ensures achievements == (if CurrentName(old(data)).Some? then Filled(CurrentGoals(old(data)), CurrentAchievements(old(data))) else map[])
      ensures forall k :: 0 <= k < |CurrentGoals(old(data))| ==> CurrentGoals(old(data))[k].id in achievements
      ensures DocumentValid(old(data)) ==> DocumentValid(data)
      ensures RefIntegrity(old(data)) ==> RefIntegrity(data)
      ensures file == old(file)
    {
      if DocumentValid(data) {
        FilledDocumentValid(data);
      }
      if RefIntegrity(data) {
        FilledDocumentLinked(data);
      }
      var current := CurrentName(data);
      if current.None? {
        return map[];
      }
      var name := current.value;
      // The map is the stored one: inserting into it changes the document.
      achievements := FillEntries(data.periods[name].goals, data.periods[name].achievements);
      data := WithPeriod(data, name, data.periods[name].(achievements := achievements));
    }

    /**
     * `calculate_achievement_rate()`: the weight-averaged total over the
     * current goals; 0.0 without goals or without positive total weight.  Its
     * `get_achievements()` call fills missing entries, which does not change
     * the rate.
     */
    method CalculateAchievementRate() returns (rate: real)
      modifies this
      ensures data == FilledDocument(old(data)) && file == old(file)
      ensures rate == AchievementRate(ProgressOf(CurrentGoals(old(data)), CurrentAchievements(old(data))))
    {
      var goals := CurrentGoals(data);
      ghost var before := CurrentAchievements(data);
      var achievements := GetAchievements();
      if goals == [] {
        return 0.0;
      }
      rate := WeightedAverage(goals, achievements);
      assert ProgressOf(goals, achievements) == ProgressOf(goals, before) by {
        FillKeepsProgress(goals, before);
      }
    }

    /**
     * `get_statistics()`: goal count, completed (at or above 100%) and partial
     * (strictly between 0% and 100%) goal counts, total weight, the overall
     * rate and the total number of items, over the current period.
     */
    method GetStatistics() returns (stats: Statistics)
      modifies this
      ensures data == FilledDocument(old(data)) && file == old(file)
      ensures stats == StatisticsOf(ProgressOf(CurrentGoals(old(data)), CurrentAchievements(old(data))))
    {
      var goals := CurrentGoals(data);
      ghost var before := CurrentAchievements(data);
      var achievements := GetAchievements();
      FillKeepsProgress(goals, before);
      if goals == [] {
        return Statistics(0, 0, 0, 0, 0.0, 0);
      }
      var completed, partial, items := Tally(goals, achievements);
      var totalWeight := TotalWeight(ProgressOf(goals, achievements));
      FilledDocumentIdempotent(old(data));
      var rate := CalculateAchievementRate();
      stats := Statistics(|goals|, completed, partial, totalWeight, rate, items);
    }

    /** `export_csv_summary(period_name)`: a header and one row per goal, or nothing for an unknown period. */
    method ExportCsvSummary(periodName: Option<string>) returns (rows: seq<Row>)
      ensures rows == SummaryExport(data, periodName)
    {
      var name := periodName;
      if name.None? {
        name := data.currentPeriod;
      }
      if name.None? || name.value == "" || name.value !in data.periods {
        return [];
      }
      var body := SummaryRows(name.value, data.periods[name.value].goals, data.periods[name.value].achievements);
      rows := [SummaryHeader] + body;
    }

    /**
     * `export_csv_detailed(period_name)`: a header, then per goal in order one
     * row per item in item order, or one placeholder row when it has none; or
     * nothing for an unknown period.
     */
    method ExportCsvDetailed(periodName: Option<string>) returns (rows: seq<Row>)
      ensures rows == DetailedExport(data, periodName)
    {
      var name := periodName;
      if name.None? {
        name := data.currentPeriod;
      }
      if name.None? || name.value == "" || name.value !in data.periods {
        return [];
      }
      var body := DetailedRows(name.value, data.periods[name.value].goals, data.periods[name.value].achievements);
      rows := [DetailedHeader] + body;
    }
  }

  /** The loop of `get_achievements`: an empty entry for each goal, in order, that has none. */
  method FillEntries(goals: seq<Goal>, stored: map<GoalId, Achievement>) returns (achievements: map<GoalId, Achievement>)
    ensures achievements == Filled(goals, stored)
  {
    achievements := stored;
    for i := 0 to |goals|
      invariant achievements == Filled(goals[..i], stored)
    {
      assert goals[..i + 1][..i] == goals[..i];
      if goals[i].id !in achievements {
        achievements := achievements[goals[i].id := EmptyAchievement];
      }
    }
    assert goals[..|goals|] == goals;
  }

  /** The summary export's loop over the goals of a period. */
  method SummaryRows(name: string, goals: seq<Goal>, achievements: map<GoalId, Achievement>) returns (rows: seq<Row>)
    ensures rows == SummaryBody(name, goals, achievements)
  {
    rows := [];
    for i := 0 to |goals|
      invariant rows == SummaryBody(name, goals[..i], achievements)
    {
      var row := SummaryRowOf(name, goals[i], achievements);
      assert SummaryBody(name, goals[..i + 1], achievements)
          == SummaryBody(name, goals[..i], achievements) + [SummaryRow(name, goals[i], achievements)] by {
        assert goals[..i + 1][..i] == goals[..i];
      }
      rows := rows + [row];
    }
    assert goals[..|goals|] == goals;
  }

  /** The summary row of one goal: its columns, its capped total, its item count and numbered details. */
  method SummaryRowOf(name: string, goal: Goal, achievements: map<GoalId, Achievement>) returns (row: Row)
    ensures row == SummaryRow(name, goal, achievements)
  {
    var total := GoalTotal(achievements, goal.id);
    var items := GoalItems(achievements, goal.id);
    var details := NumberedDetails(items);
    var detailCell := if details != [] then ItemDetails(details) else Text(Unfilled);
    row := [Text(name), Text(goal.id), Text(goal.title), Number(goal.weight), Text(goal.deadline),
            Text(goal.description), Percent1(total), Number(|items|), detailCell, Text(DatePart(goal.createdAt))];
  }

  /** The summary's "1. content (p%)" entries of one goal, numbered from 1. */
  method NumberedDetails(items: seq<Item>) returns (details: seq<Detail>)
    ensures details == DetailsOf(items)
  {
    details := [];
    for j := 0 to |items|
      invariant details == DetailsOf(items[..j])
    {
      assert items[..j + 1][..j] == items[..j];
      details := details + [Detail(j + 1, items[j].content, items[j].percentage)];
    }
    assert items[..|items|] == items;
  }

  /** The detailed export's loop over the goals of a period. */
  method DetailedRows(name: string, goals: seq<Goal>, achievements: map<GoalId, Achievement>) returns (rows: seq<Row>)
    ensures rows == DetailedBody(name, goals, achievements)
  {
    rows := [];
    for i := 0 to |goals|
      invariant rows == DetailedBody(name, goals[..i], achievements)
    {
      var goalRows := RowsOfGoal(name, goals[i], achievements);
      assert DetailedBody(name, goals[..i + 1], achievements)
          == DetailedBody(name, goals[..i], achievements) + GoalRows(name, goals[i], achievements) by {
        assert goals[..i + 1][..i] == goals[..i];
      }
      rows := rows + goalRows;
    }
    assert goals[..|goals|] == goals;
  }

  /** The detailed rows of one goal: its item rows, or the placeholder row when it has no items. */
  method RowsOfGoal(name: string, goal: Goal, achievements: map<GoalId, Achievement>) returns (rows: seq<Row>)
    ensures rows == GoalRows(name, goal, achievements)
  {
    var total := GoalTotal(achievements, goal.id);
    var items := GoalItems(achievements, goal.id);
    if items != [] {
      rows := GoalItemRows(name, goal, items, total);
    } else {
      var row := [Text(name), Text(goal.id), Text(goal.title), Number(goal.weight), Text(goal.deadline),
                  Text(goal.description), Text(""), Text(Unfilled), Text("0.0"), Text(""), Text("0.0")];
      assert row == PlaceholderRow(name, goal);
      rows := [row];
    }
  }

  /** The detailed rows of one goal's items, each repeating the goal's columns and its total. */
  method GoalItemRows(name: string, goal: Goal, items: seq<Item>, total: real) returns (rows: seq<Row>)
    ensures rows == ItemRows(name, goal, items, total)
  {
    rows := [];
    for j := 0 to |items|
      invariant rows == ItemRows(name, goal, items[..j], total)
    {
      assert items[..j + 1][..j] == items[..j];
      var row := [Text(name), Text(goal.id), Text(goal.title), Number(goal.weight), Text(goal.deadline),
                  Text(goal.description), Text(items[j].id), Text(items[j].content), Percent1(items[j].percentage),
                  Text(DatePart(items[j].createdAt)), Percent1(total)];
      assert row == ItemRow(name, goal, items[j], total);
      rows := rows + [row];
    }
    assert items[..|items|] == items;
  }

  /**
   * The accumulator loop of `calculate_achievement_rate` over a non-empty
   * goal list: `Σ weight · total` divided by `Σ weight` when that is positive.
   */
  method WeightedAverage(goals: seq<Goal>, achievements: map<GoalId, Achievement>) returns (rate: real)
    requires goals != []
    ensures rate == AchievementRate(ProgressOf(goals, achievements))
  {
    ghost var ps := ProgressOf(goals, achievements);
    var totalWeighted := 0.0;
    var totalWeight := 0.0;
    for i := 0 to |goals|
      invariant totalWeighted == WeightedSum(ps[..i])
      invariant totalWeight == TotalWeight(ps[..i]) as real
    {
      PrefixStep(ps, i);
      var goalPercentage := GoalTotal(achievements, goals[i].id);
      totalWeighted := totalWeighted + (goals[i].weight as real) * goalPercentage;
      totalWeight := totalWeight + goals[i].weight as real;
    }
    assert ps[..|goals|] == ps;
    rate := if totalWeight > 0.0 then totalWeighted / totalWeight else 0.0;
  }

  /**
   * The counting loop of `get_statistics`: goals at or above 100%, goals
   * strictly between 0% and 100%, and the number of items.
   */
  method Tally(goals: seq<Goal>, achievements: map<GoalId, Achievement>) returns (completed: nat, partial: nat, items: nat)
    ensures completed == CompletedCount(ProgressOf(goals, achievements))
    ensures partial == PartialCount(ProgressOf(goals, achievements))
    ensures items == ItemTotal(ProgressOf(goals, achievements))
  {
    ghost var ps := ProgressOf(goals, achievements);
    completed, partial, items := 0, 0, 0;
    for i := 0 to |goals|
      invariant completed == CompletedCount(ps[..i])
      invariant partial == PartialCount(ps[..i])
      invariant items == ItemTotal(ps[..i])
    {
      PrefixStep(ps, i);
      var goalPercentage := GoalTotal(achievements, goals[i].id);
      items := items + |GoalItems(achievements, goals[i].id)|;
      if goalPercentage >= 100.0 {
        completed := completed + 1;
      } else if goalPercentage > 0.0 {
        partial := partial + 1;
      }
    }
    assert ps[..|goals|] == ps;
  }
}
