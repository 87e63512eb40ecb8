/**
 * The two CSV projections of models/data_manager.py (`export_csv_summary`,
 * `export_csv_detailed`) as sequences of rows of abstract cells, and the
 * list of periods offered for export.  Quoting and byte layout belong to the
 * `csv` library; a number printed with "{:.1f}" is kept as the real it shows.
 */
module CsvExport {
  import opened Wrappers
  import opened Achievements
  import opened Periods

  /** One field of a CSV row. */
  datatype Cell =
    | Text(s: string)
    | Number(n: int)
    | Percent1(x: real)                  // a real printed with "{:.1f}"
    | ItemDetails(entries: seq<Detail>)  // "1. content (p%) | 2. ..." joined with " | "

  /** One "<n>. <content> (<percentage>%)" entry of the summary's detail column. */
  datatype Detail = Detail(ordinal: nat, content: string, percentage: real)

  type Row = seq<Cell>

  /** The placeholder written for a goal without items. */
  const Unfilled := "未記入"

  const SummaryHeader: Row := [
    Text("期間"), Text("目標ID"), Text("目標タイトル"), Text("重要度"), Text("期日"), Text("目標詳細"),
    Text("達成率(%)"), Text("達成項目数"), Text("達成項目詳細"), Text("作成日")]

  const DetailedHeader: Row := [
    Text("期間"), Text("目標ID"), Text("目標タイトル"), Text("目標重要度"), Text("目標期日"), Text("目標詳細"),
    Text("達成項目ID"), Text("達成項目内容"), Text("達成項目率(%)"), Text("達成項目作成日"), Text("目標全体達成率(%)")]

  /** `s[:10]`, the date part of an ISO timestamp. */
  function DatePart(s: string): (r: string)
    ensures |r| <= 10 && r <= s
    ensures |s| <= 10 ==> r == s
    ensures |s| > 10 ==> r == s[..10]
  {
    if |s| <= 10 then s else s[..10]
  }

  /**
   * The period an export is about: the given name, or the current period when
   * none is given; nothing when that is null, empty or not a period.
   */
  function ResolvePeriod(doc: Document, periodName: Option<string>): (r: Option<string>)
    ensures r.Some? ==> r.value in doc.periods && r.value != ""
    ensures periodName.None? ==> r == CurrentName(doc)
    ensures periodName.Some? ==>
      (r.Some? <==> periodName.value != "" && periodName.value in doc.periods) && (r.Some? ==> r == periodName)
  {
    var name := if periodName.None? then doc.currentPeriod else periodName;
    if name.Some? && name.value != "" && name.value in doc.periods then name else None
  }

  /** The numbered detail entries of a goal's items, from 1, in item order. */
  function DetailsOf(items: seq<Item>): (r: seq<Detail>)
    ensures |r| == |items|
  {
    if items == [] then []
    else DetailsOf(items[..|items| - 1]) + [Detail(|items|, items[|items| - 1].content, items[|items| - 1].percentage)]
  }

  /** The k-th detail entry is numbered k + 1 and shows the k-th item. */
  lemma {:induction false} DetailsOfEntry(items: seq<Item>, k: nat)
    requires k < |items|
    ensures DetailsOf(items)[k] == Detail(k + 1, items[k].content, items[k].percentage)
  {
    var prefix := items[..|items| - 1];
    if k < |prefix| {
      DetailsOfEntry(prefix, k);
      assert prefix[k] == items[k];
    }
  }

  /** One summary row per goal. */
  function SummaryRow(name: string, g: Goal, ach: map<GoalId, Achievement>): Row
  {
    var items := GoalItems(ach, g.id);
    [Text(name), Text(g.id), Text(g.title), Number(g.weight), Text(g.deadline), Text(g.description),
     Percent1(GoalTotal(ach, g.id)), Number(|items|),
     if items == [] then Text(Unfilled) else ItemDetails(DetailsOf(items)),
     Text(DatePart(g.createdAt))]
  }

  /** The summary's data rows: exactly one per goal, in goal order. */
  function SummaryBody(name: string, goals: seq<Goal>, ach: map<GoalId, Achievement>): (r: seq<Row>)
    ensures |r| == |goals|
  {
    if goals == [] then []
    else SummaryBody(name, goals[..|goals| - 1], ach) + [SummaryRow(name, goals[|goals| - 1], ach)]
  }

  /** The k-th summary row is the row of the k-th goal. */
  lemma {:induction false} SummaryBodyRow(name: string, goals: seq<Goal>, ach: map<GoalId, Achievement>, k: nat)
    requires k < |goals|
    ensures SummaryBody(name, goals, ach)[k] == SummaryRow(name, goals[k], ach)
  {
    var prefix := goals[..|goals| - 1];
    if k < |prefix| {
      SummaryBodyRow(name, prefix, ach, k);
      assert prefix[k] == goals[k];
    }
  }

  /** `export_csv_summary(period_name)`; the empty sequence stands for the empty string. */
  function SummaryExport(doc: Document, periodName: Option<string>): (r: seq<Row>)
    ensures r == [] <==> ResolvePeriod(doc, periodName).None?
    ensures r != [] ==> r[0] == SummaryHeader && |r| == 1 + |doc.periods[ResolvePeriod(doc, periodName).value].goals|
  {
    match ResolvePeriod(doc, periodName)
    case None => []
    case Some(name) =>
      [SummaryHeader] + SummaryBody(name, doc.periods[name].goals, doc.periods[name].achievements)
  }

  /** The detailed row of one item. */
  function ItemRow(name: string, g: Goal, it: Item, total: real): Row
  {
    [Text(name), Text(g.id), Text(g.title), Number(g.weight), Text(g.deadline), Text(g.description),
     Text(it.id), Text(it.content), Percent1(it.percentage), Text(DatePart(it.createdAt)), Percent1(total)]
  }

  /** The one detailed row of a goal without items. */
  function PlaceholderRow(name: string, g: Goal): Row
  {
    [Text(name), Text(g.id), Text(g.title), Number(g.weight), Text(g.deadline), Text(g.description),
     Text(""), Text(Unfilled), Text("0.0"), Text(""), Text("0.0")]
  }

  /** The detailed rows of one goal's items, in item order. */
  function ItemRows(name: string, g: Goal, items: seq<Item>, total: real): (r: seq<Row>)
    ensures |r| == |items|
  {
    if items == [] then []
    else ItemRows(name, g, items[..|items| - 1], total) + [ItemRow(name, g, items[|items| - 1], total)]
  }

  /** The k-th detailed row of a goal with items is the row of its k-th item. */
  lemma {:induction false} ItemRowsEntry(name: string, g: Goal, items: seq<Item>, total: real, k: nat)
    requires k < |items|
    ensures ItemRows(name, g, items, total)[k] == ItemRow(name, g, items[k], total)
  {
    var prefix := items[..|items| - 1];
    if k < |prefix| {
      ItemRowsEntry(name, g, prefix, total, k);
      assert prefix[k] == items[k];
    }
  }

  /** All detailed rows of one goal: one per item, or the placeholder. */
  function GoalRows(name: string, g: Goal, ach: map<GoalId, Achievement>): seq<Row>
  {
    var items := GoalItems(ach, g.id);
    if items == [] then [PlaceholderRow(name, g)] else ItemRows(name, g, items, GoalTotal(ach, g.id))
  }

  /** `Σ max(1, item count)` over the goals. */
  function RowBudget(goals: seq<Goal>, ach: map<GoalId, Achievement>): nat
  {
    if goals == [] then 0
    else
      var n := |GoalItems(ach, goals[|goals| - 1].id)|;
      RowBudget(goals[..|goals| - 1], ach) + (if n == 0 then 1 else n)
  }

  /** The detailed export's data rows: one per item, or one placeholder for a goal without items. */
  function DetailedBody(name: string, goals: seq<Goal>, ach: map<GoalId, Achievement>): (r: seq<Row>)
    ensures |r| == RowBudget(goals, ach)
    ensures |r| >= |goals|
  {
    if goals == [] then []
    else DetailedBody(name, goals[..|goals| - 1], ach) + GoalRows(name, goals[|goals| - 1], ach)
  }

  /** `export_csv_detailed(period_name)`; the empty sequence stands for the empty string. */
  function DetailedExport(doc: Document, periodName: Option<string>): (r: seq<Row>)
    ensures r == [] <==> ResolvePeriod(doc, periodName).None?
    ensures r != [] ==>
      var p := doc.periods[ResolvePeriod(doc, periodName).value];
      r[0] == DetailedHeader && |r| == 1 + RowBudget(p.goals, p.achievements)
  {
    match ResolvePeriod(doc, periodName)
    case None => []
    case Some(name) =>
      [DetailedHeader] + DetailedBody(name, doc.periods[name].goals, doc.periods[name].achievements)
  }

  /** The detailed rows follow goal order: the rows of a goal list are the rows of its parts, concatenated. */
  lemma {:induction false} DetailedBodyAppend(name: string, a: seq<Goal>, b: seq<Goal>, ach: map<GoalId, Achievement>)
    ensures DetailedBody(name, a + b, ach) == DetailedBody(name, a, ach) + DetailedBody(name, b, ach)
  {
    if b == [] {
      assert a + b == a;
    } else {
      var b' := b[..|b| - 1];
      assert (a + b)[..|a + b| - 1] == a + b';
      assert (a + b)[|a + b| - 1] == b[|b| - 1];
      DetailedBodyAppend(name, a, b', ach);
    }
  }

  /** A goal without items has item count 0 and the placeholder in its summary detail column. */
  lemma SummaryOfGoalWithoutItems(name: string, g: Goal, ach: map<GoalId, Achievement>)
    requires GoalItems(ach, g.id) == []
    ensures SummaryRow(name, g, ach)[7] == Number(0) && SummaryRow(name, g, ach)[8] == Text(Unfilled)
    ensures GoalRows(name, g, ach) == [PlaceholderRow(name, g)]
  {
  }

  /** `get_available_periods_for_export()`: the periods that hold at least one goal (order not modelled). */
  function AvailablePeriods(doc: Document): (r: set<string>)
    ensures r <= doc.periods.Keys
    ensures forall name :: name in doc.periods ==> (name in r <==> |doc.periods[name].goals| > 0)
  {
    set name | name in doc.periods && doc.periods[name].goals != []
  }

  /**
   * A named period is offered for export exactly when its summary export has
   * a data row.  (A period stored under the empty name is offered but exports
   * nothing, since the export treats "" as no period.)
   */
  lemma AvailableIffSummaryHasRows(doc: Document, name: string)
    requires name != ""
    ensures name in AvailablePeriods(doc) <==> |SummaryExport(doc, Some(name))| > 1
  {
    if name in doc.periods {
      var p := doc.periods[name];
      assert |SummaryExport(doc, Some(name))| == 1 + |p.goals|;
    }
  }
}
