/**
 * The in-memory document of models/data_manager.py: periods, each with an
 * ordered goal list and a map from goal id to achievement record, and a
 * `current_period` naming one of them.  Also the read-only aggregates computed over
 * the current period: the weighted achievement rate and the statistics.
 */
module Periods {
  import opened Wrappers
  import opened Keyed
  import opened Achievements

  type GoalId = string

  /** A weighted objective.  The weight bounds (1 to 10) are checked by the input forms only. */
  datatype Goal = Goal(id: GoalId, title: string, weight: int, deadline: string, description: string, createdAt: string)

  function GoalKey(g: Goal): string { g.id }

  /** One evaluation cycle: goals in display order and one achievement record per goal id. */
  datatype Period = Period(goals: seq<Goal>, achievements: map<GoalId, Achievement>, createdAt: string)

  /** The whole persisted document (`self.data`). */
  datatype Document = Document(periods: map<string, Period>, currentPeriod: Option<string>, settings: map<string, string>, version: string)

  /** `get_default_data()`: no periods, no current period, an empty API key, schema "2.0". */
  function DefaultDocument(): Document
  {
    Document(map[], None, map["claude_api_key" := ""], "2.0")
  }

  function NewPeriod(now: string): Period
  {
    Period([], map[], now)
  }

  /** The current period's name when it is set, non-empty (Python truthiness) and names a period. */
  function CurrentName(doc: Document): (r: Option<string>)
    ensures r.Some? <==> doc.currentPeriod.Some? && doc.currentPeriod.value != "" && doc.currentPeriod.value in doc.periods
    ensures r.Some? ==> r == doc.currentPeriod && r.value in doc.periods
  {
    match doc.currentPeriod
    case Some(name) => if name != "" && name in doc.periods then Some(name) else None
    case None => None
  }

  /**
   * `get_current_period_data()`: the current period, or nothing when the
   * `current_period` is null, empty, or names no stored period.
   */
  function CurrentPeriodData(doc: Document): (r: Option<Period>)
    ensures r.Some? <==> doc.currentPeriod.Some? && doc.currentPeriod.value != "" && doc.currentPeriod.value in doc.periods
    ensures r.Some? ==> r.value == doc.periods[doc.currentPeriod.value]
  {
    match CurrentName(doc)
    case Some(name) => Some(doc.periods[name])
    case None => None
  }

  /** `get_goals()`. */
  function CurrentGoals(doc: Document): seq<Goal>
  {
    match CurrentPeriodData(doc)
    case Some(p) => p.goals
    case None => []
  }

  /** The current period's achievement map as stored (before `get_achievements` fills it). */
  function CurrentAchievements(doc: Document): map<GoalId, Achievement>
  {
    match CurrentPeriodData(doc)
    case Some(p) => p.achievements
    case None => map[]
  }

  /** The document with period `name` replaced. */
  function WithPeriod(doc: Document, name: string, p: Period): Document
  {
    doc.(periods := doc.periods[name := p])
  }

  /** The document with the achievement entry of `goalId` in period `name` set to `a`. */
  function WithAchievement(doc: Document, name: string, goalId: GoalId, a: Achievement): Document
    requires name in doc.periods
  {
    var p := doc.periods[name];
    WithPeriod(doc, name, p.(achievements := p.achievements[goalId := a]))
  }

  /** Writing an entry keeps the current period valid, and a second write to the same entry wins. */
  lemma WithAchievementTwice(doc: Document, name: string, goalId: GoalId, a: Achievement, b: Achievement)
    requires name in doc.periods
    ensures CurrentName(WithAchievement(doc, name, goalId, a)) == CurrentName(doc)
    ensures WithAchievement(WithAchievement(doc, name, goalId, a), name, goalId, b) == WithAchievement(doc, name, goalId, b)
  {
    var p := doc.periods[name];
    assert p.achievements[goalId := a][goalId := b] == p.achievements[goalId := b];
    assert doc.periods[name := p.(achievements := p.achievements[goalId := a])][name := p.(achievements := p.achievements[goalId := b])]
      == doc.periods[name := p.(achievements := p.achievements[goalId := b])];
  }

  /** Writing back the entry already stored changes nothing. */
  lemma WithAchievementSame(doc: Document, name: string, goalId: GoalId)
    requires name in doc.periods && goalId in doc.periods[name].achievements
    ensures WithAchievement(doc, name, goalId, doc.periods[name].achievements[goalId]) == doc
  {
    var p := doc.periods[name];
    assert p.achievements[goalId := p.achievements[goalId]] == p.achievements;
    assert doc.periods[name := p] == doc.periods;
  }

  /** Every cached total in every period agrees with its items. */
  ghost predicate DocumentValid(doc: Document)
  {
    forall name, id :: name in doc.periods && id in doc.periods[name].achievements ==>
      Consistent(doc.periods[name].achievements[id])
  }

  /** Writing a recalculated entry keeps every cached total consistent. */
  lemma RecalculatedKeepsValid(doc: Document, name: string, id: GoalId, items: seq<Item>)
    requires DocumentValid(doc) && name in doc.periods
    ensures DocumentValid(WithAchievement(doc, name, id, Recalculated(items)))
  {
  }

  /** `achievements.get(goal_id, {}).get("total_percentage", 0.0)`. */
  function GoalTotal(ach: map<GoalId, Achievement>, id: GoalId): real
  {
    if id in ach then ach[id].totalPercentage else 0.0
  }

  /** `achievements.get(goal_id, {}).get("items", [])`. */
  function GoalItems(ach: map<GoalId, Achievement>, id: GoalId): seq<Item>
  {
    if id in ach then ach[id].items else []
  }

  /**
   * The loop of `get_achievements`: for each goal in order, an empty entry is
   * inserted when the goal has none.  Existing entries are untouched, every
   * goal ends up with an entry, and nothing else is added.
   */
  function Filled(goals: seq<Goal>, ach: map<GoalId, Achievement>): (r: map<GoalId, Achievement>)
    ensures forall id :: id in ach ==> id in r && r[id] == ach[id]
    ensures forall k :: 0 <= k < |goals| ==> goals[k].id in r
    ensures forall id :: id in r && id !in ach ==> r[id] == EmptyAchievement && HasKey(goals, GoalKey, id)
  {
    if goals == [] then ach
    else
      var prev := Filled(goals[..|goals| - 1], ach);
      var id := goals[|goals| - 1].id;
      assert forall k :: 0 <= k < |goals| - 1 ==> goals[..|goals| - 1][k] == goals[k];
      assert GoalKey(goals[|goals| - 1]) == id;
      if id in prev then prev else prev[id := EmptyAchievement]
  }

  /** Filling a map that already has an entry for every goal changes nothing. */
  lemma {:induction false} FilledNoop(goals: seq<Goal>, ach: map<GoalId, Achievement>)
    requires forall k :: 0 <= k < |goals| ==> goals[k].id in ach
    ensures Filled(goals, ach) == ach
  {
    if goals != [] {
      var prefix := goals[..|goals| - 1];
      assert forall k :: 0 <= k < |prefix| ==> prefix[k] == goals[k];
      FilledNoop(prefix, ach);
    }
  }

  /** `get_achievements` is idempotent: a second call inserts nothing. */
  lemma FilledIdempotent(goals: seq<Goal>, ach: map<GoalId, Achievement>)
    ensures Filled(goals, Filled(goals, ach)) == Filled(goals, ach)
  {
    FilledNoop(goals, Filled(goals, ach));
  }

  /** The document after `get_achievements()`: the current period's map filled, nothing else changed. */
  function FilledDocument(doc: Document): (r: Document)
    ensures CurrentName(r) == CurrentName(doc) && CurrentGoals(r) == CurrentGoals(doc)
    ensures r.periods.Keys == doc.periods.Keys && r.settings == doc.settings && r.version == doc.version
    ensures forall name :: name in doc.periods && CurrentName(doc) != Some(name) ==> r.periods[name] == doc.periods[name]
    ensures forall k :: 0 <= k < |CurrentGoals(doc)| ==> CurrentGoals(doc)[k].id in CurrentAchievements(r)
    ensures CurrentName(doc).None? ==> r == doc
    ensures CurrentName(doc).Some? ==>
      r.periods[CurrentName(doc).value] == doc.periods[CurrentName(doc).value].(achievements := Filled(CurrentGoals(doc), CurrentAchievements(doc)))
  {
    match CurrentName(doc)
    case Some(name) =>
      var p := doc.periods[name];
      WithPeriod(doc, name, p.(achievements := Filled(p.goals, p.achievements)))
    case None => doc
  }

  /** A second `get_achievements()` leaves the document as the first left it. */
  lemma FilledDocumentIdempotent(doc: Document)
    ensures FilledDocument(FilledDocument(doc)) == FilledDocument(doc)
  {
    if CurrentName(doc).Some? {
      var name := CurrentName(doc).value;
      var p := doc.periods[name];
      FilledIdempotent(p.goals, p.achievements);
      var q := p.(achievements := Filled(p.goals, p.achievements));
      assert doc.periods[name := q][name := q] == doc.periods[name := q];
    }
  }

  /** Filling the current period keeps every cached total consistent (new entries are empty). */
  lemma FilledDocumentValid(doc: Document)
    requires DocumentValid(doc)
    ensures DocumentValid(FilledDocument(doc))
  {
    assert Consistent(EmptyAchievement);
  }

  /** A period's achievement map has an entry for exactly the goals in its goal list. */
  ghost predicate PeriodLinked(p: Period)
  {
    && (forall id :: id in p.achievements ==> HasKey(p.goals, GoalKey, id))
    && (forall k :: 0 <= k < |p.goals| ==> p.goals[k].id in p.achievements)
  }

  /**
   * Referential integrity: in every period, the goal list and the achievement
   * map name the same goals.  The mutators keep it; a document read from disk
   * need not have it (a v1 file may hold texts for deleted goals).
   */
  ghost predicate RefIntegrity(doc: Document)
  {
    forall name :: name in doc.periods ==> PeriodLinked(doc.periods[name])
  }

  /** `add_goal`: the goal is appended and gets an empty entry. */
  lemma {:induction false} AddGoalLinked(p: Period, g: Goal)
    requires PeriodLinked(p)
    ensures PeriodLinked(p.(goals := p.goals + [g], achievements := p.achievements[g.id := EmptyAchievement]))
  {
    var goals := p.goals + [g];
    forall id | id in p.achievements[g.id := EmptyAchievement]
      ensures HasKey(goals, GoalKey, id)
    {
      if id == g.id {
        assert GoalKey(goals[|p.goals|]) == id;
      } else {
        var k :| 0 <= k < |p.goals| && GoalKey(p.goals[k]) == id;
        assert GoalKey(goals[k]) == id;
      }
    }
  }

  /** `delete_goal`: the goal leaves the list and its entry leaves the map. */
  lemma {:induction false} DeleteGoalLinked(p: Period, id: GoalId)
    requires PeriodLinked(p)
    ensures PeriodLinked(p.(goals := RemoveKey(p.goals, GoalKey, id), achievements := p.achievements - {id}))
  {
    var goals := RemoveKey(p.goals, GoalKey, id);
    forall other | other in p.achievements - {id}
      ensures HasKey(goals, GoalKey, other)
    {
      var k :| 0 <= k < |p.goals| && GoalKey(p.goals[k]) == other;
      assert p.goals[k] in goals;
    }
  }

  /** Writing the entry of a goal that is listed (or already has an entry) keeps the document linked. */
  lemma WithAchievementLinked(doc: Document, name: string, id: GoalId, a: Achievement)
    requires RefIntegrity(doc) && name in doc.periods
    requires HasKey(doc.periods[name].goals, GoalKey, id) || id in doc.periods[name].achievements
    ensures RefIntegrity(WithAchievement(doc, name, id, a))
  {
  }

  /** `get_achievements` fills the current period's map, which keeps every period linked. */
  lemma FilledDocumentLinked(doc: Document)
    requires RefIntegrity(doc)
    ensures RefIntegrity(FilledDocument(doc))
  {
    if CurrentName(doc).Some? {
      var p := doc.periods[CurrentName(doc).value];
      FilledNoop(p.goals, p.achievements);
    }
  }

  /** What the aggregate loops read of one goal: its weight, its total, its item count. */
  datatype Progress = Progress(weight: int, total: real, itemCount: nat)

  function ProgressOf(goals: seq<Goal>, ach: map<GoalId, Achievement>): (r: seq<Progress>)
    ensures |r| == |goals|
  {
    seq(|goals|, k requires 0 <= k < |goals| =>
      Progress(goals[k].weight, GoalTotal(ach, goals[k].id), |GoalItems(ach, goals[k].id)|))
  }

  /** The entries `get_achievements` inserts are read exactly as the defaults for a missing entry. */
  lemma FillKeepsProgress(goals: seq<Goal>, ach: map<GoalId, Achievement>)
    ensures ProgressOf(goals, Filled(goals, ach)) == ProgressOf(goals, ach)
  {
    var filled := Filled(goals, ach);
    forall k | 0 <= k < |goals|
      ensures ProgressOf(goals, filled)[k] == ProgressOf(goals, ach)[k]
    {
      var id := goals[k].id;
      assert GoalTotal(filled, id) == GoalTotal(ach, id);
      assert GoalItems(filled, id) == GoalItems(ach, id);
    }
  }

  /** `Σ weight · total_percentage`, accumulated in goal order. */
  function WeightedSum(ps: seq<Progress>): real
  {
    if ps == [] then 0.0
    else WeightedSum(ps[..|ps| - 1]) + (ps[|ps| - 1].weight as real) * ps[|ps| - 1].total
  }

  /** One step of the accumulator loops: a prefix grows by one goal. */
  lemma PrefixStep(ps: seq<Progress>, i: nat)
    requires i < |ps|
    ensures WeightedSum(ps[..i + 1]) == WeightedSum(ps[..i]) + (ps[i].weight as real) * ps[i].total
    ensures TotalWeight(ps[..i + 1]) == TotalWeight(ps[..i]) + ps[i].weight
    ensures CompletedCount(ps[..i + 1]) == CompletedCount(ps[..i]) + (if ps[i].total >= 100.0 then 1 else 0)
    ensures PartialCount(ps[..i + 1]) == PartialCount(ps[..i]) + (if ps[i].total < 100.0 && ps[i].total > 0.0 then 1 else 0)
    ensures ItemTotal(ps[..i + 1]) == ItemTotal(ps[..i]) + ps[i].itemCount
  {
    assert ps[..i + 1][..i] == ps[..i];
  }

  /** `Σ weight`. */
  function TotalWeight(ps: seq<Progress>): int
  {
    if ps == [] then 0 else TotalWeight(ps[..|ps| - 1]) + ps[|ps| - 1].weight
  }

  /** `calculate_achievement_rate`: the weighted average, 0.0 without goals or without positive total weight. */
  function AchievementRate(ps: seq<Progress>): (r: real)
    ensures ps == [] || TotalWeight(ps) <= 0 ==> r == 0.0
    ensures TotalWeight(ps) > 0 ==> r * (TotalWeight(ps) as real) == WeightedSum(ps)
  {
    if ps == [] then 0.0
    else if TotalWeight(ps) > 0 then WeightedSum(ps) / (TotalWeight(ps) as real)
    else 0.0
  }

  /** Goals at or above 100%. */
  function CompletedCount(ps: seq<Progress>): nat
  {
    if ps == [] then 0
    else CompletedCount(ps[..|ps| - 1]) + (if ps[|ps| - 1].total >= 100.0 then 1 else 0)
  }

  /** Goals strictly between 0% and 100%. */
  function PartialCount(ps: seq<Progress>): nat
  {
    if ps == [] then 0
    else PartialCount(ps[..|ps| - 1]) + (if ps[|ps| - 1].total < 100.0 && ps[|ps| - 1].total > 0.0 then 1 else 0)
  }

  /** Goals at or below 0%. */
  function NotStartedCount(ps: seq<Progress>): nat
  {
    if ps == [] then 0
    else NotStartedCount(ps[..|ps| - 1]) + (if ps[|ps| - 1].total <= 0.0 then 1 else 0)
  }

  /** Achievement items over all goals. */
  function ItemTotal(ps: seq<Progress>): nat
  {
    if ps == [] then 0 else ItemTotal(ps[..|ps| - 1]) + ps[|ps| - 1].itemCount
  }

  /** The dictionary returned by `get_statistics`. */
  datatype Statistics = Statistics(
    totalGoals: nat, completedGoals: nat, partialGoals: nat,
    totalWeight: int, achievementRate: real, totalAchievementItems: nat)

  /**
   * `get_statistics`: the shortcut for a period without goals gives the same
   * figures as the general counts, and completed and partial goals are
   * disjoint.
   */
  function StatisticsOf(ps: seq<Progress>): (r: Statistics)
    ensures r.totalGoals == |ps|
    ensures r.completedGoals == CompletedCount(ps) && r.partialGoals == PartialCount(ps)
    ensures r.totalWeight == TotalWeight(ps) && r.achievementRate == AchievementRate(ps)
    ensures r.totalAchievementItems == ItemTotal(ps)
    ensures r.completedGoals + r.partialGoals <= r.totalGoals
  {
    CountsPartition(ps);
    if ps == [] then Statistics(0, 0, 0, 0, 0.0, 0)
    else Statistics(|ps|, CompletedCount(ps), PartialCount(ps), TotalWeight(ps), AchievementRate(ps), ItemTotal(ps))
  }

  /** Every goal is exactly one of completed, partial or not started. */
  lemma {:induction false} CountsPartition(ps: seq<Progress>)
    ensures CompletedCount(ps) + PartialCount(ps) + NotStartedCount(ps) == |ps|
  {
    if ps != [] {
      CountsPartition(ps[..|ps| - 1]);
    }
  }

  /** The completed count equals the goal count exactly when every goal is at or above 100%. */
  lemma {:induction false} AllCompletedIff(ps: seq<Progress>)
    ensures CompletedCount(ps) == |ps| <==> forall k :: 0 <= k < |ps| ==> ps[k].total >= 100.0
  {
    if ps != [] {
      var prefix := ps[..|ps| - 1];
      AllCompletedIff(prefix);
      CountsPartition(prefix);
      assert forall k :: 0 <= k < |prefix| ==> prefix[k] == ps[k];
    }
  }

  /** Goals with non-negative weights and totals in [0, 100]. */
  ghost predicate WellFormed(ps: seq<Progress>)
  {
    forall k :: 0 <= k < |ps| ==> ps[k].weight >= 0 && 0.0 <= ps[k].total <= 100.0
  }

  lemma {:induction false} WeightedSumBounds(ps: seq<Progress>)
    requires WellFormed(ps)
    ensures 0.0 <= WeightedSum(ps) <= 100.0 * (TotalWeight(ps) as real)
  {
    if ps != [] {
      var prefix := ps[..|ps| - 1];
      assert WellFormed(prefix) by {
        assert forall k :: 0 <= k < |prefix| ==> prefix[k] == ps[k];
      }
      WeightedSumBounds(prefix);
      LastTermBounds(ps);
    }
  }

  /** The last goal adds between 0 and 100 times its weight to the weighted sum. */
  lemma LastTermBounds(ps: seq<Progress>)
    requires ps != []
    requires ps[|ps| - 1].weight >= 0 && 0.0 <= ps[|ps| - 1].total <= 100.0
    ensures var prefix := ps[..|ps| - 1];
      && 0.0 <= WeightedSum(ps) - WeightedSum(prefix)
      && WeightedSum(ps) - WeightedSum(prefix) <= 100.0 * ((TotalWeight(ps) - TotalWeight(prefix)) as real)
  {
    var last := ps[|ps| - 1];
    WeightedTermBounds(last.weight as real, last.total);
  }

  lemma WeightedTermBounds(w: real, t: real)
    requires w >= 0.0 && 0.0 <= t <= 100.0
    ensures 0.0 <= w * t <= 100.0 * w
  {
  }

  /** With non-negative weights and totals in [0, 100], the overall rate lies in [0, 100]. */
  lemma AchievementRateBounds(ps: seq<Progress>)
    requires WellFormed(ps)
    ensures 0.0 <= AchievementRate(ps) <= 100.0
  {
    if ps != [] && TotalWeight(ps) > 0 {
      WeightedSumBounds(ps);
      var tw := TotalWeight(ps) as real;
      assert WeightedSum(ps) / tw <= 100.0 by {
        assert WeightedSum(ps) <= 100.0 * tw && tw > 0.0;
      }
    }
  }

  lemma {:induction false} WeightedSumUniform(ps: seq<Progress>, p: real)
    requires forall k :: 0 <= k < |ps| ==> ps[k].total == p
    ensures WeightedSum(ps) == p * (TotalWeight(ps) as real)
  {
    if ps != [] {
      var prefix := ps[..|ps| - 1];
      assert forall k :: 0 <= k < |prefix| ==> prefix[k] == ps[k];
      WeightedSumUniform(prefix, p);
    }
  }

  /** When every goal has the same total and the total weight is positive, that total is the rate. */
  lemma AchievementRateUniform(ps: seq<Progress>, p: real)
    requires forall k :: 0 <= k < |ps| ==> ps[k].total == p
    requires TotalWeight(ps) > 0
    ensures AchievementRate(ps) == p
  {
    WeightedSumUniform(ps, p);
    var tw := TotalWeight(ps) as real;
    assert AchievementRate(ps) == (p * tw) / tw;
    DivCancel(p, tw);
  }

  lemma DivCancel(p: real, w: real)
    requires w > 0.0
    ensures (p * w) / w == p
  {
  }

  /** When every goal is completed and capped at 100, the overall rate is 100. */
  lemma AllCompletedRate(ps: seq<Progress>)
    requires WellFormed(ps) && TotalWeight(ps) > 0
    requires CompletedCount(ps) == |ps|
    ensures AchievementRate(ps) == 100.0
  {
    AllCompletedIff(ps);
    AchievementRateUniform(ps, 100.0);
  }

  /**
   * In a document whose cached totals are consistent, whose current items are
   * non-negative and whose current weights are non-negative (the input-form
   * bounds), the current rate lies in [0, 100].
   */
  lemma CurrentRateInRange(doc: Document)
    requires DocumentValid(doc)
    requires forall k :: 0 <= k < |CurrentGoals(doc)| ==> CurrentGoals(doc)[k].weight >= 0
    requires forall id :: id in CurrentAchievements(doc) ==> NonNegativeItems(CurrentAchievements(doc)[id].items)
    ensures 0.0 <= AchievementRate(ProgressOf(CurrentGoals(doc), CurrentAchievements(doc))) <= 100.0
  {
    var goals, ach := CurrentGoals(doc), CurrentAchievements(doc);
    var ps := ProgressOf(goals, ach);
    forall k | 0 <= k < |ps| ensures ps[k].weight >= 0 && 0.0 <= ps[k].total <= 100.0 {
      var id := goals[k].id;
      if id in ach {
        TotalInRange(ach[id]);
      }
    }
    AchievementRateBounds(ps);
  }
}
