/**
 * Achievement items and the per-goal achievement record
 * (models/data_manager.py): an ordered item list plus a cached total that is
 * `min(100.0, sum of item percentages)`.  Only the goal total is capped; an
 * individual item may exceed 100.
 */
module Achievements {
  import opened Wrappers
  import opened Keyed

  type ItemId = string

  /** One logged increment of progress against a goal. */
  datatype Item = Item(id: ItemId, content: string, percentage: real, createdAt: string, updatedAt: Option<string>)
  {
    /** The item after an edit: content and percentage together, stamped with the edit time. */
    function Edited(newContent: string, newPercentage: real, now: string): Item
    {
      this.(content := newContent, percentage := newPercentage, updatedAt := Some(now))
    }
  }

  function ItemKey(it: Item): string { it.id }

  /** The record kept per goal: its items and their cached, capped total. */
  datatype Achievement = Achievement(items: seq<Item>, totalPercentage: real)

  /** `{"items": [], "total_percentage": 0.0}`, the entry a new goal starts with. */
  const EmptyAchievement := Achievement([], 0.0)

  /** `sum(item["percentage"] for item in items)`. */
  function SumPercentages(items: seq<Item>): real
  {
    if items == [] then 0.0 else items[0].percentage + SumPercentages(items[1..])
  }

  /** `min(sum, 100.0)`: the cap is never exceeded, and the sum is kept whenever it is within the cap. */
  function CappedTotal(items: seq<Item>): (r: real)
    ensures r <= 100.0 && r <= SumPercentages(items)
    ensures r == SumPercentages(items) <==> SumPercentages(items) <= 100.0
    ensures SumPercentages(items) > 100.0 ==> r == 100.0
  {
    var total := SumPercentages(items);
    if total <= 100.0 then total else 100.0
  }

  /** The cached total agrees with the items: the invariant every item mutation restores. */
  predicate Consistent(a: Achievement)
  {
    a.totalPercentage == CappedTotal(a.items)
  }

  /** `_recalculate_goal_percentage` applied to an entry holding `items`. */
  function Recalculated(items: seq<Item>): (a: Achievement)
    ensures Consistent(a) && a.items == items
  {
    Achievement(items, CappedTotal(items))
  }

  predicate NonNegativeItems(items: seq<Item>)
  {
    forall k :: 0 <= k < |items| ==> items[k].percentage >= 0.0
  }

  lemma {:induction false} SumAppend(a: seq<Item>, b: seq<Item>)
    ensures SumPercentages(a + b) == SumPercentages(a) + SumPercentages(b)
  {
    if a == [] {
      assert a + b == b;
    } else {
      assert (a + b)[0] == a[0];
      assert (a + b)[1..] == a[1..] + b;
      SumAppend(a[1..], b);
    }
  }

  lemma {:induction false} SumNonNegative(items: seq<Item>)
    requires NonNegativeItems(items)
    ensures SumPercentages(items) >= 0.0
  {
    if items != [] {
      assert NonNegativeItems(items[1..]) by {
        forall k | 0 <= k < |items[1..]| ensures items[1..][k].percentage >= 0.0 {
          assert items[1..][k] == items[k + 1];
        }
      }
      SumNonNegative(items[1..]);
    }
  }

  /** A consistent total of non-negative items lies in [0, 100]. */
  lemma TotalInRange(a: Achievement)
    requires Consistent(a) && NonNegativeItems(a.items)
    ensures 0.0 <= a.totalPercentage <= 100.0
  {
    SumNonNegative(a.items);
  }

  /**
   * Appending an item adds its percentage to the sum before the cap; with a
   * non-negative percentage the total never goes down.
   */
  lemma TotalAfterAppend(items: seq<Item>, it: Item)
    ensures SumPercentages(items + [it]) == SumPercentages(items) + it.percentage
    ensures it.percentage >= 0.0 ==> CappedTotal(items + [it]) >= CappedTotal(items)
  {
    SumAppend(items, [it]);
    assert SumPercentages([it]) == it.percentage + SumPercentages([]);
  }

  /** Replacing one item changes the sum by exactly the difference of the two percentages. */
  lemma {:induction false} SumAfterReplace(items: seq<Item>, i: nat, it: Item)
    requires i < |items|
    ensures SumPercentages(items[i := it]) == SumPercentages(items) - items[i].percentage + it.percentage
  {
    if i == 0 {
      assert items[i := it][1..] == items[1..];
    } else {
      assert items[i := it][1..] == items[1..][i - 1 := it];
      SumAfterReplace(items[1..], i - 1, it);
    }
  }

  /** Deleting items with non-negative percentages never raises the sum. */
  lemma {:induction false} SumAfterRemove(items: seq<Item>, id: ItemId)
    requires NonNegativeItems(items)
    ensures SumPercentages(RemoveKey(items, ItemKey, id)) <= SumPercentages(items)
  {
    if items != [] {
      var rest := items[1..];
      assert NonNegativeItems(rest) by {
        forall k | 0 <= k < |rest| ensures rest[k].percentage >= 0.0 {
          assert rest[k] == items[k + 1];
        }
      }
      SumAfterRemove(rest, id);
      var head := if ItemKey(items[0]) == id then [] else [items[0]];
      assert RemoveKey(items, ItemKey, id) == head + RemoveKey(rest, ItemKey, id);
      SumAppend(head, RemoveKey(rest, ItemKey, id));
      assert SumPercentages([items[0]]) == items[0].percentage + SumPercentages([]);
    }
  }
}
