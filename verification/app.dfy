/** The application store: the collection of lists, the open list, the name typed for a
    new list and the visible screen, with the handlers the screens call. */
module App {
  import opened Types
  import opened Filtering
  import opened ListHelpers
  import opened Selection

  /** The predicate the toggle handler counts with: an item counts as purchased after the
      toggle when it is the toggled one and was not purchased, or is another purchased item. */
  function FlippedPurchase(itemId: string): ShoppingItem -> bool {
    (item: ShoppingItem) => if item.id == itemId then !item.isPurchased else item.isPurchased
  }

  /** Counting the items before the toggle with the flipped predicate gives the purchased
      count of the toggled items. */
  lemma {:induction false} FlippedCount(items: seq<ShoppingItem>, itemId: string)
    ensures |Filter(items, FlippedPurchase(itemId))| == |Filter(ToggleItems(items, itemId), IsPurchased)|
  {
    if items != [] {
      FlippedCount(items[1..], itemId);
    }
  }

  /** The list value the toggle handler builds inline: items toggled, `purchased`,
      `progress` and `isCompleted` recounted from the old items, `total` carried over. */
  function ToggledList(list: GroceryList, itemId: string): (r: GroceryList)
    ensures r.id == list.id && r.name == list.name && r.total == list.total
    ensures StatsHold(list) ==> StatsHold(r)
  {
    var purchased := |Filter(list.items, FlippedPurchase(itemId))|;
    FlippedCount(list.items, itemId);
    list.(items := ToggleItems(list.items, itemId),
          purchased := purchased,
          progress := Progress(purchased, |list.items|),
          isCompleted := |list.items| > 0 && purchased == |list.items|)
  }

  /** The inline toggle agrees with the list layer's toggle on everything but `total`,
      which it carries over instead of recounting. */
  lemma ToggledListAgrees(list: GroceryList, itemId: string)
    ensures var inline := ToggledList(list, itemId);
            var helper := ToggleItemInList(list, itemId);
            && inline.items == helper.items
            && inline.purchased == helper.purchased
            && inline.progress == helper.progress
            && inline.isCompleted == helper.isCompleted
            && inline.total == list.total
            && (list.total == |list.items| ==> inline == helper)
  {
    FlippedCount(list.items, itemId);
  }

  /** The lists after the toggle handler: the open list toggled, every other list as it was. */
  function ToggleInLists(lists: seq<GroceryList>, currentListId: string, itemId: string): (r: seq<GroceryList>)
    ensures |r| == |lists|
    ensures forall i :: 0 <= i < |lists| && lists[i].id != currentListId ==> r[i] == lists[i]
    ensures forall i :: 0 <= i < |lists| && lists[i].id == currentListId ==>
      r[i] == ToggledList(lists[i], itemId)
  {
    if lists == [] then []
    else [if lists[0].id == currentListId then ToggledList(lists[0], itemId) else lists[0]]
         + ToggleInLists(lists[1..], currentListId, itemId)
  }

  /** The list value the done handler builds when it appends: items and `total` updated,
      `progress` zeroed, `purchased` and `isCompleted` left as they were. */
  function AppendedList(list: GroceryList, newItems: seq<ShoppingItem>): (r: GroceryList)
    ensures r.id == list.id && r.name == list.name
    ensures r.items == AddItemsToList(list, newItems).items
    ensures r.total == AddItemsToList(list, newItems).total
    ensures r.purchased == list.purchased && r.isCompleted == list.isCompleted && r.progress == 0.0
  {
    list.(items := list.items + newItems, total := |list.items| + |newItems|, progress := 0.0)
  }

  /** Appending does not re-establish the statistics: a complete list with one purchased item
      stays marked complete, at progress 0, after an unpurchased item is added, whereas
      the list layer's append would mark it incomplete at 50. */
  lemma AppendedListLeavesStatsStale()
    ensures var item := ShoppingItem("1", "Milk", "1 item", true);
            var list := GroceryList("7", "Weekly", 1, 1, 100.0, true, [item]);
            var more := [ShoppingItem("2", "Eggs", "1 item", false)];
            && StatsHold(list)
            && AppendedList(list, more).isCompleted
            && AppendedList(list, more).progress == 0.0
            && !StatsHold(AppendedList(list, more))
            && !AddItemsToList(list, more).isCompleted
            && AddItemsToList(list, more).progress == 50.0
  {
    var item := ShoppingItem("1", "Milk", "1 item", true);
    var list := GroceryList("7", "Weekly", 1, 1, 100.0, true, [item]);
    var more := [ShoppingItem("2", "Eggs", "1 item", false)];
    assert Filter([item], IsPurchased) == [item];
    assert Filter(more, IsPurchased) == [];
  }

  /** The lists after the done handler appends: the open list extended, every other list as it was. */
  function AppendInLists(lists: seq<GroceryList>, currentListId: string, newItems: seq<ShoppingItem>)
    : (r: seq<GroceryList>)
    ensures |r| == |lists|
    ensures forall i :: 0 <= i < |lists| && lists[i].id != currentListId ==> r[i] == lists[i]
    ensures forall i :: 0 <= i < |lists| && lists[i].id == currentListId ==>
      r[i] == AppendedList(lists[i], newItems)
  {
    if lists == [] then []
    else [if lists[0].id == currentListId then AppendedList(lists[0], newItems) else lists[0]]
         + AppendInLists(lists[1..], currentListId, newItems)
  }

  /** The list the done handler creates when no list is open. */
  function CreatedList(id: string, name: string, newItems: seq<ShoppingItem>): (r: GroceryList)
    ensures r.id == id && r.name == name && r.items == newItems
    ensures r.purchased == 0 && r.total == |newItems| && r.progress == 0.0 && !r.isCompleted
    ensures (forall i :: 0 <= i < |newItems| ==> !newItems[i].isPurchased) <==> StatsHold(r)
  {
    FilterEmpty(newItems, IsPurchased);
    GroceryList(id, name, 0, |newItems|, 0.0, false, newItems)
  }

  /** A list created from converted selections satisfies the statistics invariants: its
      fixed zeros are what the list layer computes for unpurchased items. */
  lemma CreatedListStatsHold(id: string, name: string, selected: seq<SelectedItem>)
    ensures StatsHold(CreatedList(id, name, ToShoppingItems(selected)))
    ensures CreatedList(id, name, ToShoppingItems(selected))
         == UpdateListWithStats(CreatedList(id, name, ToShoppingItems(selected)))
  {
    ConvertedItemsUnpurchased(selected);
  }

  /** The first list with the given id, as `Array.prototype.find` returns it. */
  function FindList(lists: seq<GroceryList>, id: string): (r: Option<GroceryList>)
    ensures r.None? <==> forall i :: 0 <= i < |lists| ==> lists[i].id != id
    ensures r.Some? ==> exists i :: 0 <= i < |lists| && lists[i] == r.value && lists[i].id == id
                          && forall j :: 0 <= j < i ==> lists[j].id != id
  {
    if lists == [] then None
    else if lists[0].id == id then Some(lists[0])
    else
      var rest := FindList(lists[1..], id);
      if rest.Some? then
        assert forall j :: 1 <= j < |lists| ==> lists[j] == lists[1..][j - 1];
        rest
      else rest
  }

  class Store {
    var lists: seq<GroceryList>
    var currentListId: string
    var listName: string
    var currentScreen: Screen

    /** The store at start-up: the given lists, no list open, the default name, the lists screen. */
    constructor (initialLists: seq<GroceryList>)
      ensures lists == initialLists
      ensures currentListId == "" && listName == NewListName && currentScreen == MyListsScreen
    {
      lists := initialLists;
      currentListId := "";
      listName := NewListName;
      currentScreen := MyListsScreen;
    }

    /** The list being shown, if the open id names one. */
    function CurrentList(): (r: Option<GroceryList>)
      reads this
      ensures r.Some? ==> r.value in lists && r.value.id == currentListId
      ensures r.None? ==> forall l :: l in lists ==> l.id != currentListId
      ensures r.Some? ==> exists i :: 0 <= i < |lists| && lists[i] == r.value
                            && forall j :: 0 <= j < i ==> lists[j].id != currentListId
    {
      FindList(lists, currentListId)
    }

    /** Opens a list: its id becomes the open one and the shopping view shows. */
    method HandleListClick(listId: string)
      modifies this
      ensures currentListId == listId && currentScreen == ShoppingViewScreen
      ensures lists == old(lists) && listName == old(listName)
    {
      currentListId := listId;
      currentScreen := ShoppingViewScreen;
    }

    /** Starts a new list: the name is reset and the add-items screen shows; the open list
        id is left as it was. */
    method HandleAddNewList()
      modifies this
      ensures listName == NewListName && currentScreen == AddItemsScreen
      ensures lists == old(lists) && currentListId == old(currentListId)
    {
      listName := NewListName;
      currentScreen := AddItemsScreen;
    }

    /** Back to the lists screen; the open list id is left as it was. */
    method HandleBackToLists()
      modifies this
      ensures currentScreen == MyListsScreen
      ensures lists == old(lists) && currentListId == old(currentListId) && listName == old(listName)
    {
      currentScreen := MyListsScreen;
    }

    /** From the shopping view to the add-items screen, for the open list. */
    method HandleAddMoreItems()
      modifies this
      ensures currentScreen == AddItemsScreen
      ensures lists == old(lists) && currentListId == old(currentListId) && listName == old(listName)
    {
      currentScreen := AddItemsScreen;
    }

    /** The name field of the add-items screen. */
    method SetListName(name: string)
      modifies this
      ensures listName == name
      ensures lists == old(lists) && currentListId == old(currentListId) && currentScreen == old(currentScreen)
    {
      listName := name;
    }

    /** Toggles an item of the open list; no other list and no other field changes. */
    method HandleItemToggle(itemId: string)
      modifies this
      ensures lists == ToggleInLists(old(lists), currentListId, itemId)
      ensures currentListId == old(currentListId) && listName == old(listName)
      ensures currentScreen == old(currentScreen)
    {
      lists := ToggleInLists(lists, currentListId, itemId);
    }

    /** Turns the selection into list items; appends them to the open list when there is one,
        otherwise creates a list with the typed name and opens it; then shows the list. */
    method HandleDoneAddingItems(selectedItems: seq<SelectedItem>, newListId: string)
      modifies this
      ensures var newItems := ToShoppingItems(selectedItems);
        if old(currentListId) != "" then
          lists == AppendInLists(old(lists), old(currentListId), newItems) && currentListId == old(currentListId)
        else
          lists == old(lists) + [CreatedList(newListId, old(listName), newItems)] && currentListId == newListId
      ensures currentScreen == ShoppingViewScreen && listName == old(listName)
    {
      var newItems := ToShoppingItems(selectedItems);
      if currentListId != "" {
        lists := AppendInLists(lists, currentListId, newItems);
      } else {
        var newList := CreatedList(newListId, listName, newItems);
        lists := lists + [newList];
        currentListId := newList.id;
      }
      currentScreen := ShoppingViewScreen;
    }
  }

  /** Once a list has been opened, the "new list" flow adds the selection to that list
      instead of creating one, because no handler clears the open list id. */
  method NewListAfterOpeningAppends(store: Store, listId: string, selected: seq<SelectedItem>, newListId: string)
    requires listId != ""
    modifies store
    ensures |store.lists| == |old(store.lists)|
    ensures store.lists == AppendInLists(old(store.lists), listId, ToShoppingItems(selected))
    ensures store.currentListId == listId && store.currentScreen == ShoppingViewScreen
  {
    store.HandleListClick(listId);
    store.HandleBackToLists();
    store.HandleAddNewList();
    store.HandleDoneAddingItems(selected, newListId);
  }

  /** With no list open, the same flow creates exactly one list, at the end, and opens it. */
  method NewListFromStartCreates(store: Store, name: string, selected: seq<SelectedItem>, newListId: string)
    requires store.currentListId == ""
    modifies store
    ensures store.lists == old(store.lists) + [CreatedList(newListId, name, ToShoppingItems(selected))]
    ensures store.currentListId == newListId && store.currentScreen == ShoppingViewScreen
  {
    store.HandleAddNewList();
    store.SetListName(name);
    store.HandleDoneAddingItems(selected, newListId);
  }
}
