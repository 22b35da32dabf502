/** The create-list page: a selection over the whole catalog, a list name, a search term,
    and the route parameter that says whether items go to an existing list. */
module CreateListPage {
  import opened Types
  import opened Selection

  /** What "Done" hands to the application: the converted entries, either for the list
      named in the route or for a new list with the typed name. */
  datatype DoneAction =
    | AddToList(listId: string, items: seq<ShoppingItem>)
    | CreateList(listName: string, items: seq<ShoppingItem>)

  class Page {
    const listId: string      // the route parameter, "" when the route has none
    var listName: string
    var searchTerm: string
    var items: seq<SelectedItem>

    /** The stepper invariant: selected exactly when the quantity is positive. */
    ghost predicate Valid()
      reads this
    {
      SelectionConsistent(items)
    }

    /** The page as first rendered for a catalog: nothing selected, default name, empty search. */
    constructor (catalog: seq<MasterItem>, listId: string)
      ensures this.listId == listId
      ensures listName == NewListName && searchTerm == ""
      ensures items == InitialSelection(catalog)
      ensures Valid() && SelectedCount(items) == 0
    {
      this.listId := listId;
      listName := NewListName;
      searchTerm := "";
      items := InitialSelection(catalog);
      InitialSelectionIsEmpty(catalog);
    }

    /** A press of a stepper button on the entry `itemId`; only the selection changes,
        which keeps the stepper invariant. */
    method HandleQuantityChange(itemId: string, change: int)
      requires Valid()
      modifies this
      ensures Valid()
      ensures items == ChangeQuantity(old(items), itemId, change)
      ensures listName == old(listName) && searchTerm == old(searchTerm)
    {
      ChangePreservesConsistency(items, itemId, change);
      items := ChangeQuantity(items, itemId, change);
    }

    method SetSearchTerm(term: string)
      requires Valid()
      modifies this
      ensures Valid()
      ensures searchTerm == term
      ensures items == old(items) && listName == old(listName)
    {
      searchTerm := term;
    }

    method SetListName(name: string)
      requires Valid()
      modifies this
      ensures Valid()
      ensures listName == name
      ensures items == old(items) && searchTerm == old(searchTerm)
    {
      listName := name;
    }

    /** "Done": the selected entries, converted, go to the route's list when there is one
        and to a new list otherwise; as many as the button's count. */
    method HandleDone() returns (action: DoneAction)
      ensures action.items == ToShoppingItems(SelectedItems(items))
      ensures |action.items| == SelectedCount(items)
      ensures listId != "" ==> action == AddToList(listId, action.items)
      ensures listId == "" ==> action == CreateList(listName, action.items)
      ensures Valid() ==> forall e :: e in action.items ==> exists q :: q > 0 && e.quantity == QuantityLabel(q)
    {
      var shoppingItems := ToShoppingItems(SelectedItems(items));
      if Valid() {
        DoneQuantitiesPositive(items);
      }
      if listId != "" {
        action := AddToList(listId, shoppingItems);
      } else {
        action := CreateList(listName, shoppingItems);
      }
    }

    /** The displayed groups: the search result grouped by category. */
    method GroupedItems() returns (g: map<string, seq<SelectedItem>>)
      ensures g == GroupByCategory(FilteredItems(items, searchTerm))
    {
      g := GroupItems(FilteredItems(items, searchTerm));
    }
  }

  /** Every converted entry of "Done" is an unpurchased copy of a selected entry, in order. */
  lemma DoneEmitsSelected(items: seq<SelectedItem>)
    ensures var out := ToShoppingItems(SelectedItems(items));
      && |out| == SelectedCount(items)
      && forall i :: 0 <= i < |out| ==>
           exists x :: x in items && x.isSelected && out[i] == ToShoppingItem(x)
  {
    var sel := SelectedItems(items);
    var out := ToShoppingItems(sel);
    forall i | 0 <= i < |out|
      ensures exists x :: x in items && x.isSelected && out[i] == ToShoppingItem(x)
    {
      assert sel[i] in sel;
      assert out[i] == ToShoppingItem(sel[i]);
    }
  }

  /** While the selection is consistent, every entry "Done" emits carries a positive quantity. */
  lemma DoneQuantitiesPositive(items: seq<SelectedItem>)
    requires SelectionConsistent(items)
    ensures forall e :: e in ToShoppingItems(SelectedItems(items)) ==>
      exists q :: q > 0 && e.quantity == QuantityLabel(q)
  {
    var sel := SelectedItems(items);
    var out := ToShoppingItems(sel);
    forall e | e in out
      ensures exists q :: q > 0 && e.quantity == QuantityLabel(q)
    {
      var i :| 0 <= i < |out| && out[i] == e;
      assert sel[i] in sel;
      var j :| 0 <= j < |items| && items[j] == sel[i];
      assert e.quantity == QuantityLabel(items[j].quantity);
    }
  }
}
