/** The pure list layer: derived statistics and the list updates that keep them in step. */
module ListHelpers {
  import opened Types
  import opened Filtering

  /** The four values derived from an item sequence. */
  datatype Stats = Stats(total: int, purchased: int, progress: real, isCompleted: bool)

  predicate IsPurchased(item: ShoppingItem) {
    item.isPurchased
  }

  /** The completion percentage; exactly 0 when there is nothing to divide by. */
  function Progress(purchased: int, total: int): real {
    if total > 0 then (purchased as real / total as real) * 100.0 else 0.0
  }

  /** With `0 <= purchased <= total`, the percentage lies in [0, 100], is 100 exactly when
      everything is purchased and 0 exactly when nothing is. */
  lemma ProgressRange(purchased: int, total: int)
    requires 0 <= purchased <= total
    ensures 0.0 <= Progress(purchased, total) <= 100.0
    ensures Progress(purchased, total) == 100.0 <==> total > 0 && purchased == total
    ensures Progress(purchased, total) == 0.0 <==> purchased == 0
  {
    if total > 0 {
      var q := purchased as real / total as real;
      assert q * total as real == purchased as real;
      assert 0.0 <= q <= 1.0;
      assert q == 1.0 <==> purchased == total;
      assert q == 0.0 <==> purchased == 0;
    }
  }

  /** The statistics of an item sequence: its length, how many items are purchased, the
      purchased percentage and whether the list is complete. */
  function CalculateListStats(items: seq<ShoppingItem>): (s: Stats)
    ensures s.total == |items|
    ensures 0 <= s.purchased <= s.total
    ensures s.total == 0 ==> s.progress == 0.0 && !s.isCompleted
    ensures 0.0 <= s.progress <= 100.0
    ensures s.progress == Progress(s.purchased, s.total)
    ensures s.progress == 100.0 <==> s.isCompleted
    ensures s.progress == 0.0 <==> s.purchased == 0
    ensures s.isCompleted <==> s.total > 0 && s.purchased == s.total
    ensures s.isCompleted <==> |items| > 0 && forall i :: 0 <= i < |items| ==> items[i].isPurchased
  {
    var total := |items|;
    var purchased := |Filter(items, IsPurchased)|;
    ProgressRange(purchased, total);
    FilterKeepsAll(items, IsPurchased);
    Stats(total, purchased, Progress(purchased, total), total > 0 && purchased == total)
  }

  /** The purchased count counts each purchased item with its multiplicity and nothing else;
      the purchased and unpurchased items together make up the whole list. */
  lemma PurchasedCountIsExact(items: seq<ShoppingItem>, x: ShoppingItem)
    ensures multiset(Filter(items, IsPurchased))[x] == if x.isPurchased then multiset(items)[x] else 0
    ensures CalculateListStats(items).purchased + |Filter(items, Not(IsPurchased))| == |items|
  {
    FilterMultiplicity(items, IsPurchased, x);
    FilterComplement(items, IsPurchased);
  }

  /** The invariants every list value should satisfy. */
  predicate StatsHold(list: GroceryList) {
    && list.total == |list.items|
    && list.purchased == |Filter(list.items, IsPurchased)|
    && list.progress == Progress(list.purchased, list.total)
    && list.isCompleted == (list.total > 0 && list.purchased == list.total)
  }

  /** The list with its four statistics fields recomputed from its items. */
  function UpdateListWithStats(list: GroceryList): (r: GroceryList)
    ensures r.id == list.id && r.name == list.name && r.items == list.items
    ensures StatsHold(r)
  {
    var s := CalculateListStats(list.items);
    list.(total := s.total, purchased := s.purchased, progress := s.progress, isCompleted := s.isCompleted)
  }

  /** Recomputing is idempotent, and a list whose statistics already hold is left as it is. */
  lemma UpdateIdempotent(list: GroceryList)
    ensures UpdateListWithStats(UpdateListWithStats(list)) == UpdateListWithStats(list)
    ensures StatsHold(list) <==> UpdateListWithStats(list) == list
  {
  }

  /** The item with `isPurchased` flipped when its id is `itemId`. */
  function ToggleItem(item: ShoppingItem, itemId: string): ShoppingItem {
    if item.id == itemId then item.(isPurchased := !item.isPurchased) else item
  }

  /** `items` with `isPurchased` flipped on every item whose id is `itemId`. */
  function ToggleItems(items: seq<ShoppingItem>, itemId: string): (r: seq<ShoppingItem>)
    ensures |r| == |items|
    ensures forall i :: 0 <= i < |items| ==>
      && r[i].id == items[i].id && r[i].name == items[i].name && r[i].quantity == items[i].quantity
      && r[i].isPurchased == (if items[i].id == itemId then !items[i].isPurchased else items[i].isPurchased)
  {
    if items == [] then [] else [ToggleItem(items[0], itemId)] + ToggleItems(items[1..], itemId)
  }

  /** Toggles the items with the given id and recomputes the statistics. */
  function ToggleItemInList(list: GroceryList, itemId: string): (r: GroceryList)
    ensures r.id == list.id && r.name == list.name
    ensures |r.items| == |list.items|
    ensures forall i :: 0 <= i < |list.items| && list.items[i].id != itemId ==> r.items[i] == list.items[i]
    ensures forall i :: 0 <= i < |list.items| && list.items[i].id == itemId ==>
      r.items[i] == list.items[i].(isPurchased := !list.items[i].isPurchased)
    ensures StatsHold(r)
  {
    var updatedItems := ToggleItems(list.items, itemId);
    var s := CalculateListStats(updatedItems);
    list.(items := updatedItems, total := s.total, purchased := s.purchased, progress := s.progress,
          isCompleted := s.isCompleted)
  }

  /** Toggling the same id twice restores the items; with the statistics recomputed,
      the result is the original list once its statistics are brought up to date. */
  lemma ToggleTwice(list: GroceryList, itemId: string)
    ensures ToggleItemInList(ToggleItemInList(list, itemId), itemId).items == list.items
    ensures ToggleItemInList(ToggleItemInList(list, itemId), itemId) == UpdateListWithStats(list)
  {
    var once := ToggleItemInList(list, itemId);
    var twice := ToggleItemInList(once, itemId);
    assert twice.items == list.items;
  }

  /** An id that matches no item changes nothing but the statistics, which are recomputed. */
  lemma ToggleAbsentId(list: GroceryList, itemId: string)
    requires forall i :: 0 <= i < |list.items| ==> list.items[i].id != itemId
    ensures ToggleItemInList(list, itemId).items == list.items
    ensures ToggleItemInList(list, itemId) == UpdateListWithStats(list)
    ensures StatsHold(list) ==> ToggleItemInList(list, itemId) == list
  {
    assert ToggleItemInList(list, itemId).items == list.items;
  }

  /** With exactly one item carrying the id, the purchased count moves by exactly one:
      down when that item was purchased, up otherwise. */
  lemma {:induction false} ToggleOneMatch(items: seq<ShoppingItem>, itemId: string, k: nat)
    requires k < |items| && items[k].id == itemId
    requires forall j :: 0 <= j < |items| && items[j].id == itemId ==> j == k
    ensures |Filter(ToggleItems(items, itemId), IsPurchased)|
         == |Filter(items, IsPurchased)| + (if items[k].isPurchased then -1 else 1)
  {
    if k == 0 {
      assert ToggleItems(items[1..], itemId) == items[1..];
    } else {
      ToggleOneMatch(items[1..], itemId, k - 1);
    }
  }

  /** The list-level form: toggling a unique id moves `purchased` by exactly one. */
  lemma ToggleUniqueMovesPurchasedByOne(list: GroceryList, itemId: string, k: nat)
    requires k < |list.items| && list.items[k].id == itemId
    requires forall j :: 0 <= j < |list.items| && list.items[j].id == itemId ==> j == k
    ensures ToggleItemInList(list, itemId).purchased
         == CalculateListStats(list.items).purchased + (if list.items[k].isPurchased then -1 else 1)
  {
    ToggleOneMatch(list.items, itemId, k);
  }

  /** Appends the new items after the existing ones and recomputes the statistics. */
  function AddItemsToList(list: GroceryList, newItems: seq<ShoppingItem>): (r: GroceryList)
    ensures r.id == list.id && r.name == list.name
    ensures r.items == list.items + newItems
    ensures r.total == |list.items| + |newItems|
    ensures r.purchased == CalculateListStats(list.items).purchased + CalculateListStats(newItems).purchased
    ensures StatsHold(r)
  {
    var updatedItems := list.items + newItems;
    var s := CalculateListStats(updatedItems);
    FilterAppend(list.items, newItems, IsPurchased);
    list.(items := updatedItems, total := s.total, purchased := s.purchased, progress := s.progress,
          isCompleted := s.isCompleted)
  }

  /** Adding nothing only recomputes the statistics. */
  lemma AddNothing(list: GroceryList)
    ensures AddItemsToList(list, []) == UpdateListWithStats(list)
  {
    assert list.items + [] == list.items;
  }

  /** Adding any unpurchased item makes the list incomplete, in particular a completed one. */
  lemma AddUnpurchasedReopens(list: GroceryList, newItems: seq<ShoppingItem>, j: nat)
    requires j < |newItems| && !newItems[j].isPurchased
    ensures !AddItemsToList(list, newItems).isCompleted
    ensures AddItemsToList(list, newItems).progress < 100.0
  {
    var all := list.items + newItems;
    assert all[|list.items| + j] == newItems[j];
  }

  /** A two-item list: toggling one item gives half progress, toggling it back gives none,
      toggling both completes the list. */
  lemma ToggleScenario()
    ensures var a := ShoppingItem("a", "Apples", "2 items", false);
            var b := ShoppingItem("b", "Bread", "1 item", false);
            var list := UpdateListWithStats(GroceryList("p", "Party", 0, 0, 0.0, false, [a, b]));
            var once := ToggleItemInList(list, "a");
            var back := ToggleItemInList(once, "a");
            var both := ToggleItemInList(once, "b");
            && once.total == 2 && once.purchased == 1 && once.progress == 50.0 && !once.isCompleted
            && back.purchased == 0 && back.progress == 0.0 && !back.isCompleted
            && both.purchased == 2 && both.progress == 100.0 && both.isCompleted
  {
    var a := ShoppingItem("a", "Apples", "2 items", false);
    var b := ShoppingItem("b", "Bread", "1 item", false);
    var list := UpdateListWithStats(GroceryList("p", "Party", 0, 0, 0.0, false, [a, b]));
    ToggleOneMatch(list.items, "a", 0);
    var once := ToggleItemInList(list, "a");
    ToggleOneMatch(once.items, "a", 0);
    ToggleOneMatch(once.items, "b", 1);
    assert Filter([a, b], IsPurchased) == [];
  }
}
