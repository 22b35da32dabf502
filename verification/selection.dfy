/** The item-selection logic of the create-list page and the add-items panel: the
    quantity stepper, the selected items and the grouping by category, which both spell
    out; the create-list page's catalog-based initial selection and search filter; and
    the conversion to list items that the create-list page and the store's done handler
    both perform. */
module Selection {
  import opened Types
  import opened Filtering
  import ListHelpers

  /** The selection state a catalog starts with: every entry, in order, unpicked. */
  function InitialSelection(catalog: seq<MasterItem>): (r: seq<SelectedItem>)
    ensures |r| == |catalog|
    ensures forall i :: 0 <= i < |catalog| ==>
      && r[i].id == catalog[i].id && r[i].name == catalog[i].name && r[i].category == catalog[i].category
      && r[i].quantity == 0 && !r[i].isSelected
  {
    if catalog == [] then []
    else [SelectedItem(catalog[0].id, catalog[0].name, catalog[0].category, 0, false)]
         + InitialSelection(catalog[1..])
  }

  /** The invariant of the stepper: an entry is selected exactly when its quantity is positive,
      and no quantity is negative. */
  predicate SelectionConsistent(items: seq<SelectedItem>) {
    forall i :: 0 <= i < |items| ==> items[i].quantity >= 0 && (items[i].isSelected <==> items[i].quantity > 0)
  }

  function Max(a: int, b: int): int {
    if a >= b then a else b
  }

  /** One entry after a press of a stepper button, when its id is `itemId`. */
  function ChangeItemQuantity(item: SelectedItem, itemId: string, change: int): SelectedItem {
    if item.id == itemId
    then item.(quantity := Max(0, item.quantity + change), isSelected := item.quantity + change > 0)
    else item
  }

  /** The selection after `change` is added to the quantity of the entries with id `itemId`. */
  function ChangeQuantity(items: seq<SelectedItem>, itemId: string, change: int): (r: seq<SelectedItem>)
    ensures |r| == |items|
    ensures forall i :: 0 <= i < |items| ==>
      r[i].id == items[i].id && r[i].name == items[i].name && r[i].category == items[i].category
    ensures forall i :: 0 <= i < |items| && items[i].id != itemId ==> r[i] == items[i]
    ensures forall i :: 0 <= i < |items| && items[i].id == itemId ==>
      && r[i].quantity >= 0
      && r[i].quantity == (if items[i].quantity + change > 0 then items[i].quantity + change else 0)
      && (r[i].isSelected <==> items[i].quantity + change > 0)
  {
    if items == [] then []
    else [ChangeItemQuantity(items[0], itemId, change)] + ChangeQuantity(items[1..], itemId, change)
  }

  /** A quantity change keeps the stepper invariant; the changed entries satisfy it whatever
      they looked like before. */
  lemma ChangePreservesConsistency(items: seq<SelectedItem>, itemId: string, change: int)
    requires SelectionConsistent(items)
    ensures SelectionConsistent(ChangeQuantity(items, itemId, change))
  {
  }

  /** Pressing "-" on an entry at quantity 0 leaves it at 0 and unselected. */
  lemma DecrementAtZero(items: seq<SelectedItem>, itemId: string, k: nat)
    requires k < |items| && items[k].id == itemId && items[k].quantity == 0
    ensures ChangeQuantity(items, itemId, -1)[k].quantity == 0
    ensures !ChangeQuantity(items, itemId, -1)[k].isSelected
  {
  }

  predicate IsSelected(item: SelectedItem) {
    item.isSelected
  }

  /** The selected entries, in their original order. */
  function SelectedItems(items: seq<SelectedItem>): (r: seq<SelectedItem>)
    ensures forall x :: x in r <==> x in items && x.isSelected
    ensures |r| <= |items|
  {
    Filter(items, IsSelected)
  }

  /** The number the "Done" button shows. */
  function SelectedCount(items: seq<SelectedItem>): (n: nat)
    ensures n <= |items|
    ensures n == 0 <==> forall i :: 0 <= i < |items| ==> !items[i].isSelected
  {
    FilterEmpty(items, IsSelected);
    |SelectedItems(items)|
  }

  /** The initial selection selects nothing. */
  lemma InitialSelectionIsEmpty(catalog: seq<MasterItem>)
    ensures SelectionConsistent(InitialSelection(catalog))
    ensures SelectedItems(InitialSelection(catalog)) == []
    ensures SelectedCount(InitialSelection(catalog)) == 0
  {
    FilterEmpty(InitialSelection(catalog), IsSelected);
  }

  // ---- quantity labels ----

  function DigitChar(d: nat): char
    requires d < 10
  {
    "0123456789"[d]
  }

  function DigitValue(c: char): nat {
    if '0' <= c <= '9' then (c as int - '0' as int) as nat else 0
  }

  /** The decimal rendering of a natural number, without leading zeros. */
  function NatToString(n: nat): (s: string)
    ensures |s| > 0
    ensures forall i :: 0 <= i < |s| ==> '0' <= s[i] <= '9'
    ensures |s| > 1 ==> s[0] != '0'
    decreases n
  {
    if n < 10 then [DigitChar(n)] else NatToString(n / 10) + [DigitChar(n % 10)]
  }

  /** Reads a string of decimal digits back as a number. */
  function ParseNat(s: string): nat {
    if s == [] then 0 else ParseNat(s[..|s| - 1]) * 10 + DigitValue(s[|s| - 1])
  }

  /** The rendering loses nothing: the number is read back from its digits. */
  lemma {:induction false} ParseNatToString(n: nat)
    ensures ParseNat(NatToString(n)) == n
    decreases n
  {
    var s := NatToString(n);
    if n < 10 {
      assert s[..0] == [];
    } else {
      ParseNatToString(n / 10);
      assert s[..|s| - 1] == NatToString(n / 10);
    }
  }

  /** The decimal rendering of an integer, as a template literal writes it: a minus sign
      for negative numbers, then the digits of the magnitude. */
  function IntToString(n: int): (s: string)
    ensures |s| > 0
    ensures n >= 0 ==> s == NatToString(n)
    ensures n < 0 ==> s[0] == '-' && s[1..] == NatToString(-n)
  {
    if n < 0 then "-" + NatToString(-n) else NatToString(n)
  }

  /** The display label of a quantity: the number, a space, then "item" when it is 1 and
      "items" otherwise. For a non-negative quantity its leading digits read back as it. */
  function QuantityLabel(q: int): (s: string)
    ensures |s| == |IntToString(q)| + (if q == 1 then 5 else 6)
    ensures s[..|IntToString(q)|] == IntToString(q)
    ensures s[|IntToString(q)|] == ' '
    ensures q == 1 ==> s[|s| - 5..] == " item"
    ensures q != 1 ==> s[|s| - 6..] == " items"
    ensures (s[|s| - 5..] == " item") <==> q == 1
    ensures q >= 0 ==> ParseNat(s[..|IntToString(q)|]) == q
  {
    var d := IntToString(q);
    var s := d + " " + (if q == 1 then "item" else "items");
    assert q != 1 ==> s[|s| - 6..] == " items" && s[|s| - 5..] == "items";
    assert s[..|d|] == d;
    ParseNatToString(if q >= 0 then q else 0);
    s
  }

  /** The list entry a selected catalog entry becomes: same id and name, its quantity label,
      not yet purchased. */
  function ToShoppingItem(item: SelectedItem): ShoppingItem {
    ShoppingItem(item.id, item.name, QuantityLabel(item.quantity), false)
  }

  /** The conversion of a selection to list entries, one per selected entry, in order. */
  function ToShoppingItems(selected: seq<SelectedItem>): (r: seq<ShoppingItem>)
    ensures |r| == |selected|
    ensures forall i :: 0 <= i < |selected| ==>
      && r[i].id == selected[i].id && r[i].name == selected[i].name
      && r[i].quantity == QuantityLabel(selected[i].quantity) && !r[i].isPurchased
  {
    if selected == [] then [] else [ToShoppingItem(selected[0])] + ToShoppingItems(selected[1..])
  }

  /** Converted entries are all unpurchased, so their statistics are those of a fresh list. */
  lemma ConvertedItemsUnpurchased(selected: seq<SelectedItem>)
    ensures ListHelpers.CalculateListStats(ToShoppingItems(selected)).purchased == 0
    ensures ListHelpers.CalculateListStats(ToShoppingItems(selected)).progress == 0.0
    ensures !ListHelpers.CalculateListStats(ToShoppingItems(selected)).isCompleted
  {
    var items := ToShoppingItems(selected);
    FilterEmpty(items, ListHelpers.IsPurchased);
  }

  // ---- search ----

  /** ASCII lower-casing of one character. */
  function LowerChar(c: char): char {
    if 'A' <= c <= 'Z' then (c as int + 32) as char else c
  }

  function Lower(s: string): (r: string)
    ensures |r| == |s|
    ensures forall i :: 0 <= i < |s| ==> r[i] == LowerChar(s[i])
  {
    if s == [] then [] else [LowerChar(s[0])] + Lower(s[1..])
  }

  /** Whether `needle` occurs in `hay` as a contiguous piece, as `String.prototype.includes` decides. */
  function Contains(hay: string, needle: string): (b: bool)
    ensures needle == [] ==> b
    ensures b ==> |needle| <= |hay|
    decreases |hay|
  {
    (|needle| <= |hay| && hay[..|needle|] == needle) || (hay != [] && Contains(hay[1..], needle))
  }

  /** The needle sits in the haystack starting at position `k`. */
  predicate OccursAt(hay: string, needle: string, k: int) {
    0 <= k && k + |needle| <= |hay| && hay[k..k + |needle|] == needle
  }

  /** An occurrence at any position is found. */
  lemma {:induction false} ContainsAt(hay: string, needle: string, k: nat)
    requires OccursAt(hay, needle, k)
    ensures Contains(hay, needle)
  {
    if k > 0 {
      assert hay[1..][k - 1..k - 1 + |needle|] == needle;
      ContainsAt(hay[1..], needle, k - 1);
    }
  }

  /** Only occurrences are found: a contained needle sits at some position. */
  lemma {:induction false} ContainsOnlyAt(hay: string, needle: string) returns (k: nat)
    requires Contains(hay, needle)
    ensures OccursAt(hay, needle, k)
    decreases |hay|
  {
    if |needle| <= |hay| && hay[..|needle|] == needle {
      k := 0;
    } else {
      var j := ContainsOnlyAt(hay[1..], needle);
      assert hay[1..][j..j + |needle|] == hay[j + 1..j + 1 + |needle|];
      k := j + 1;
    }
  }

  /** `Contains` decides exactly whether the needle occurs somewhere. */
  lemma ContainsIffOccurs(hay: string, needle: string)
    ensures Contains(hay, needle) <==> exists k :: OccursAt(hay, needle, k)
  {
    if Contains(hay, needle) {
      var k := ContainsOnlyAt(hay, needle);
    }
    if k :| OccursAt(hay, needle, k) {
      ContainsAt(hay, needle, k);
    }
  }

  /** The search predicate for one term. */
  function MatchesSearch(term: string): SelectedItem -> bool {
    (item: SelectedItem) => Contains(Lower(item.name), Lower(term))
  }

  /** The entries whose lower-cased name contains the lower-cased term, in order. */
  function FilteredItems(items: seq<SelectedItem>, term: string): (r: seq<SelectedItem>)
    ensures forall x :: x in r <==> x in items && Contains(Lower(x.name), Lower(term))
    ensures |r| <= |items|
  {
    Filter(items, MatchesSearch(term))
  }

  /** The search keeps an entry exactly when the lower-cased term occurs at some position of
      its lower-cased name. */
  lemma FilteredItemsExact(items: seq<SelectedItem>, term: string, x: SelectedItem)
    ensures x in FilteredItems(items, term) <==> x in items && exists k :: OccursAt(Lower(x.name), Lower(term), k)
  {
    assert x in FilteredItems(items, term) <==> x in items && Contains(Lower(x.name), Lower(term));
    ContainsIffOccurs(Lower(x.name), Lower(term));
  }

  /** An empty search term keeps every entry. */
  lemma EmptySearchKeepsAll(items: seq<SelectedItem>)
    ensures FilteredItems(items, "") == items
  {
    FilterKeepsAll(items, MatchesSearch(""));
  }

  // ---- grouping ----

  function InCategory(k: string): SelectedItem -> bool {
    (item: SelectedItem) => item.category == k
  }

  function Categories(items: seq<SelectedItem>): set<string> {
    set x | x in items :: x.category
  }

  /** The grouping the category reduce produces: one group per category that occurs,
      holding that category's entries in their original order. */
  function GroupByCategory(items: seq<SelectedItem>): map<string, seq<SelectedItem>> {
    map k | k in Categories(items) :: Filter(items, InCategory(k))
  }

  /** The grouping is a partition of the entries: every entry sits in the group of its own
      category exactly as often as it occurs, no group is empty, and no group holds an
      entry of another category. */
  lemma GroupedIsPartition(items: seq<SelectedItem>)
    ensures GroupByCategory(items).Keys == Categories(items)
    ensures forall x :: x in items ==>
      x.category in GroupByCategory(items)
      && multiset(GroupByCategory(items)[x.category])[x] == multiset(items)[x]
    ensures forall k, x :: k in GroupByCategory(items) && x in GroupByCategory(items)[k] ==> x.category == k
    ensures forall k :: k in GroupByCategory(items) ==> |GroupByCategory(items)[k]| > 0
  {
    var g := GroupByCategory(items);
    forall x | x in items
      ensures x.category in g && multiset(g[x.category])[x] == multiset(items)[x]
    {
      FilterMultiplicity(items, InCategory(x.category), x);
    }
    forall k | k in g ensures |g[k]| > 0 {
      var x :| x in items && x.category == k;
      assert x in g[k];
    }
  }

  /** One step of the reduce: push the entry into the group of its category, creating
      the group first when it is missing. */
  function Push(acc: map<string, seq<SelectedItem>>, item: SelectedItem): map<string, seq<SelectedItem>> {
    acc[item.category := (if item.category in acc then acc[item.category] else []) + [item]]
  }

  lemma CategoriesAppend(s: seq<SelectedItem>, x: SelectedItem)
    ensures Categories(s + [x]) == Categories(s) + {x.category}
  {
    assert forall y :: y in s + [x] <==> y in s || y == x;
  }

  /** The group of one category after one more entry. */
  lemma GroupAfterEntry(s: seq<SelectedItem>, x: SelectedItem, k: string)
    ensures Filter(s + [x], InCategory(k))
         == if k == x.category then Filter(s, InCategory(k)) + [x] else Filter(s, InCategory(k))
    ensures k == x.category && k !in Categories(s) ==> Filter(s, InCategory(k)) == []
  {
    FilterAppend(s, [x], InCategory(k));
    assert [x][1..] == [];
    if k == x.category && k !in Categories(s) {
      FilterEmpty(s, InCategory(k));
    }
  }

  /** One step of the reduce: the entry is appended to the group of its category, which is
      created when it is the first of its kind. */
  lemma GroupStep(s: seq<SelectedItem>, x: SelectedItem)
    ensures GroupByCategory(s + [x]) == Push(GroupByCategory(s), x)
  {
    var g := GroupByCategory(s);
    var g' := GroupByCategory(s + [x]);
    var h := Push(g, x);
    CategoriesAppend(s, x);
    assert g'.Keys == h.Keys;
    forall k | k in g'.Keys ensures g'[k] == h[k] {
      GroupAfterEntry(s, x, k);
    }
  }

  /** The reduce over the entries, from the empty accumulator. */
  function GroupFold(items: seq<SelectedItem>): map<string, seq<SelectedItem>> {
    if items == [] then map[] else Push(GroupFold(items[..|items| - 1]), items[|items| - 1])
  }

  /** The reduce computes the grouping by category. */
  lemma {:induction false} GroupFoldIsGrouping(items: seq<SelectedItem>)
    ensures GroupFold(items) == GroupByCategory(items)
  {
    if items == [] {
      assert Categories(items) == {};
    } else {
      var s := items[..|items| - 1];
      var x := items[|items| - 1];
      GroupFoldIsGrouping(s);
      assert items == s + [x];
      GroupStep(s, x);
    }
  }

  /** The category reduce: walks the entries, pushing each into the accumulator group of
      its category, which it creates on the category's first entry. */
  method GroupItems(items: seq<SelectedItem>) returns (acc: map<string, seq<SelectedItem>>)
    ensures acc == GroupByCategory(items)
  {
    acc := map[];
    var i := 0;
    while i < |items|
      invariant 0 <= i <= |items|
      invariant acc == GroupFold(items[..i])
    {
      var item := items[i];
      var group := if item.category in acc then acc[item.category] else [];
      acc := acc[item.category := group + [item]];
      assert items[..i + 1][..i] == items[..i];
      i := i + 1;
    }
    assert items[..i] == items;
    GroupFoldIsGrouping(items);
  }
}
