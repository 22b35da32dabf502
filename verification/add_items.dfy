/** The add-items panel: a fixed seed selection, a stepper per entry, and "Done", which
    hands the selected entries to the application. */
module AddItems {
  import opened Types
  import opened Filtering
  import opened Selection

  /** The five entries the panel starts with; only Lettuce is picked, once. */
  function SeedItems(): (r: seq<SelectedItem>)
    ensures |r| == 5
    ensures SelectionConsistent(r)
    ensures r[2].name == "Lettuce" && r[2].quantity == 1 && r[2].isSelected
  {
    [
      SelectedItem("1", "Apples", "Produce", 0, false),
      SelectedItem("2", "Bananas", "Produce", 0, false),
      SelectedItem("3", "Lettuce", "Produce", 1, true),
      SelectedItem("4", "Milk", "Dairy & Eggs", 0, false),
      SelectedItem("5", "Eggs", "Dairy & Eggs", 0, false)
    ]
  }

  /** Lettuce is the only entry the seed selects. */
  lemma SeedSelectsOnlyLettuce()
    ensures SelectedItems(SeedItems()) == [SeedItems()[2]]
    ensures SelectedCount(SeedItems()) == 1
  {
    var r := SeedItems();
    assert !r[0].isSelected && !r[1].isSelected && !r[3].isSelected && !r[4].isSelected;
    assert Filter(r[5..], IsSelected) == [];
    assert Filter(r[4..], IsSelected) == [] by { assert r[4..][1..] == r[5..]; }
    assert Filter(r[3..], IsSelected) == [] by { assert r[3..][1..] == r[4..]; }
    assert Filter(r[2..], IsSelected) == [r[2]] by { assert r[2..][1..] == r[3..]; }
    assert Filter(r[1..], IsSelected) == [r[2]] by { assert r[1..][1..] == r[2..]; }
  }

  class Panel {
    var searchTerm: string
    var items: seq<SelectedItem>

    /** The stepper invariant: selected exactly when the quantity is positive. */
    ghost predicate Valid()
      reads this
    {
      SelectionConsistent(items)
    }

    constructor ()
      ensures items == SeedItems() && searchTerm == ""
      ensures Valid()
    {
      searchTerm := "";
      items := SeedItems();
    }

    /** A press of a stepper button on the entry `itemId`; only the selection changes,
        which keeps the stepper invariant. */
    method HandleQuantityChange(itemId: string, change: int)
      requires Valid()
      modifies this
      ensures Valid()
      ensures items == ChangeQuantity(old(items), itemId, change)
      ensures searchTerm == old(searchTerm)
    {
      ChangePreservesConsistency(items, itemId, change);
      items := ChangeQuantity(items, itemId, change);
    }

    method SetSearchTerm(term: string)
      requires Valid()
      modifies this
      ensures Valid()
      ensures searchTerm == term && items == old(items)
    {
      searchTerm := term;
    }

    /** "Done": the selected entries, unconverted and in order, as many as the button's count. */
    method HandleDone() returns (selected: seq<SelectedItem>)
      ensures selected == SelectedItems(items)
      ensures |selected| == SelectedCount(items)
      ensures forall x :: x in selected <==> x in items && x.isSelected
      ensures Valid() ==> forall x :: x in selected ==> x.quantity > 0
    {
      selected := SelectedItems(items);
    }

    /** The displayed groups: all entries grouped by category; the search term plays no part. */
    method GroupedItems() returns (g: map<string, seq<SelectedItem>>)
      ensures g == GroupByCategory(items)
    {
      g := GroupItems(items);
    }
  }
}
