# Grocery checklist: a Dafny model of the list state layer

This project models the state layer of a small grocery-list web application. The application keeps a
collection of grocery lists. Each list holds shopping items plus four statistics derived from them:
`total`, `purchased`, `progress` and `isCompleted`. Users pick catalog entries with a quantity
stepper and turn the picks into list items. While shopping, they tick items off.

The model has seven modules, one file each:

- `Types` (`types.dfy`): the records `ShoppingItem`, `GroceryList`, `MasterItem` and `SelectedItem`, plus the three screens.
- `Filtering` (`filtering.dfy`): `Array.prototype.filter` on sequences. Lemmas cover order preservation, multiplicities and the split into kept and dropped parts.
- `ListHelpers` (`list_helpers.dfy`): the pure list layer from `src/utils/listHelpers.ts`. It has the statistics, the recompute, the toggle and the append. The statistics are proved to be exactly the four values below, and the recompute, the toggle and the append are proved to establish them as the four list invariants:
  - `total = |items|`
  - `purchased` = the number of purchased items
  - `progress = purchased / total * 100`, or 0 for an empty list
  - `isCompleted` iff `total > 0` and `purchased = total`
- `Selection` (`selection.dfy`): the item-selection logic of `src/pages/CreateListPage.tsx` and `src/components/AddItems.tsx`. It covers:
  - the quantity stepper with its invariant "selected iff quantity > 0", the selected-item filter and the group-by-category reduce, which both pages spell out; the reduce is an imperative loop proved against a map-valued specification
  - the create-list page's catalog-based initial selection and its search filter
  - the conversion to list items with the "N item"/"N items" label, which the create-list page and the store's done handler both perform
- `CreateListPage` (`create_list_page.dfy`): the create-list page as a class over its state: selection, list name, search term and route list id.
- `AddItems` (`add_items.dfy`): the add-items panel as a class over its seeded selection.
- `App` (`app.dfy`): the application store as a class with the fields `lists`, `currentListId`, `listName` and `currentScreen`, and one method per handler. The list values the handlers build inline are pure functions. Lemmas relate them to the list layer.

What the store handlers do, as the code does it:

- The toggle handler recounts `purchased`, `progress` and `isCompleted` with its own flipped predicate and carries `total` over. It is proved to agree with `toggleItemInList` on everything except `total`.
- When a list is open, the done handler appends the new items and zeroes `progress`. It leaves `purchased` and `isCompleted` unchanged, so the list's statistics can go stale. `App.AppendedListLeavesStatsStale` shows a completed list that stays marked completed after an unpurchased item is appended.
- No handler clears `currentListId`. So once a list has been opened, the "new list" flow adds to that list instead of creating one (`App.NewListAfterOpeningAppends`).

Where the code's behaviour may be unexpected, the model follows it:

- The toggle flips every item whose id matches, not only the first one.
- The store creates a list with fixed zero statistics rather than computing them. `App.CreatedListStatsHold` shows the two agree for converted items, because converted items are never purchased.
- The store's append does not recompute the statistics.
- The add-items panel keeps a search term but never filters by it; its groups always show every entry (`AddItems.Panel.GroupedItems`).
- The search filter and the category grouping are modelled as well, although they only shape what the pages display.

`progress` is an exact `real`. Counts are unbounded `int`s.

## Model

| member | source | states |
|---|---|---|
| Filtering.Filter | src/utils/listHelpers.ts:8 | the result is no longer than the input and holds exactly the input's elements that satisfy the predicate |
| Filtering.FilterAppend | src/utils/listHelpers.ts:8 | filtering commutes with concatenation, so it never reorders elements |
| ListHelpers.ProgressRange | src/utils/listHelpers.ts:9 | for 0 <= purchased <= total the percentage is in [0,100]; it is 100 iff total > 0 and everything is purchased, and 0 iff nothing is |
| ListHelpers.CalculateListStats | src/utils/listHelpers.ts:6-13 | total is the item count and 0 <= purchased <= total; an empty list has progress 0 and is not completed; progress is purchased / total * 100 (0 when total is 0) and lies in [0,100], 100 iff completed and 0 iff nothing is purchased; completed iff total > 0 and purchased == total, iff the list is non-empty and every item is purchased |
| ListHelpers.PurchasedCountIsExact | src/utils/listHelpers.ts:8 | the purchased filter keeps every purchased item with its multiplicity and no unpurchased item; purchased plus unpurchased equals the item count |
| ListHelpers.UpdateListWithStats | src/utils/listHelpers.ts:18-24 | keeps id, name and items and establishes the four list invariants |
| ListHelpers.UpdateIdempotent | src/utils/listHelpers.ts:18-24 | recomputing twice equals recomputing once; a list is a fixed point iff its invariants already hold |
| ListHelpers.ToggleItems | src/utils/listHelpers.ts:33-37 | same length; every item keeps id, name and quantity; isPurchased is flipped exactly on the items whose id matches |
| ListHelpers.ToggleItemInList | src/utils/listHelpers.ts:29-46 | keeps id, name and item count; non-matching items are unchanged; matching items are flipped; the four invariants hold afterwards |
| ListHelpers.ToggleTwice | src/utils/listHelpers.ts:33-37 | toggling an id twice restores the items, and the list equals the original with its statistics recomputed |
| ListHelpers.ToggleAbsentId | src/utils/listHelpers.ts:33-39 | an id that matches no item leaves the items unchanged; a list whose invariants hold is returned unchanged |
| ListHelpers.ToggleOneMatch | src/utils/listHelpers.ts:33-39 | with exactly one matching item, the purchased count goes down by one if that item was purchased and up by one otherwise |
| ListHelpers.ToggleUniqueMovesPurchasedByOne | src/utils/listHelpers.ts:29-46 | the same at list level: the toggled list's purchased is the old count plus or minus one |
| ListHelpers.ToggleScenario | src/utils/listHelpers.ts:29-46 | two unpurchased items: one toggle gives 1 of 2 at 50 percent, toggling back gives 0 percent, toggling both completes the list at 100 |
| ListHelpers.AddItemsToList | src/utils/listHelpers.ts:51-63 | keeps id and name; items are old ++ new with no reordering or dedup; total is the sum of lengths; purchased is the sum of both parts' counts; the invariants hold |
| ListHelpers.AddNothing | src/utils/listHelpers.ts:55-62 | adding an empty sequence equals recomputing the statistics |
| ListHelpers.AddUnpurchasedReopens | src/utils/listHelpers.ts:55-62 | adding any unpurchased item yields a list that is not completed and below 100 percent |
| Selection.InitialSelection | src/pages/CreateListPage.tsx:19-25 | one entry per catalog entry, in order, with the same id, name and category, quantity 0 and not selected |
| Selection.InitialSelectionIsEmpty | src/pages/CreateListPage.tsx:19-25 | the initial selection satisfies the stepper invariant and selects nothing |
| Selection.ChangeQuantity | src/pages/CreateListPage.tsx:27-38 | same length; id, name and category are never altered; non-matching entries are unchanged; a matching entry gets quantity max(0, q + change), never negative, and is selected iff q + change > 0 |
| Selection.ChangePreservesConsistency | src/pages/CreateListPage.tsx:33-34 | a quantity change preserves "selected iff quantity > 0, quantity >= 0" |
| Selection.DecrementAtZero | src/pages/CreateListPage.tsx:33-34 | pressing minus at quantity 0 leaves quantity 0 and the entry unselected |
| Selection.SelectedItems | src/pages/CreateListPage.tsx:42 | holds exactly the selected entries and is no longer than the input |
| Selection.SelectedCount | src/pages/CreateListPage.tsx:71 | at most the entry count; 0 iff no entry is selected |
| Selection.NatToString | src/pages/CreateListPage.tsx:48 | a non-empty string of decimal digits with no leading zero |
| Selection.ParseNatToString | src/pages/CreateListPage.tsx:48 | reading the rendered digits back gives the number |
| Selection.IntToString | src/pages/CreateListPage.tsx:48 | a non-negative integer renders as its decimal digits; a negative one as a minus sign followed by the digits of its magnitude; never empty |
| Selection.QuantityLabel | src/pages/CreateListPage.tsx:48 | the label is the rendered number, a space, then "item" when the quantity is 1 and "items" otherwise (exact length, prefix, separator and suffix); it ends in " item" iff the quantity is 1; for a non-negative quantity its leading digits read back as the quantity |
| Selection.ToShoppingItems | src/pages/CreateListPage.tsx:45-50 | one item per selected entry, in order, with the same id and name, the quantity label, and not purchased |
| Selection.ConvertedItemsUnpurchased | src/pages/CreateListPage.tsx:45-50 | converted items have purchased 0, progress 0 and are not completed |
| Selection.Lower | src/pages/CreateListPage.tsx:75 | same length, each character lower-cased (ASCII) |
| Selection.Contains | src/pages/CreateListPage.tsx:75 | the empty needle is always contained; a contained needle is no longer than the haystack |
| Selection.ContainsAt | src/pages/CreateListPage.tsx:75 | a needle occurring at any position is contained |
| Selection.ContainsOnlyAt | src/pages/CreateListPage.tsx:75 | a contained needle occurs at some position, which the lemma returns |
| Selection.ContainsIffOccurs | src/pages/CreateListPage.tsx:75 | `includes` holds exactly when the needle occurs at some position |
| Selection.FilteredItems | src/pages/CreateListPage.tsx:74-76 | keeps exactly the entries whose lower-cased name contains the lower-cased term |
| Selection.FilteredItemsExact | src/pages/CreateListPage.tsx:74-76 | an entry is kept exactly when the lower-cased term occurs at some position of its lower-cased name |
| Selection.EmptySearchKeepsAll | src/pages/CreateListPage.tsx:74-76 | an empty search term keeps every entry in order |
| Selection.GroupedIsPartition | src/pages/CreateListPage.tsx:79-85 | keys are exactly the categories present; every entry sits in its own category's group exactly as often as in the input; no group holds another category's entry; no group is empty |
| Selection.GroupStep | src/pages/CreateListPage.tsx:80-83 | processing one more entry appends it to its category's group, creating the group if it is missing |
| Selection.GroupAfterEntry | src/pages/CreateListPage.tsx:80-83 | after one more entry, its category's group gains it at the end, and every other group is unchanged; a category seen for the first time had an empty group |
| Selection.GroupFoldIsGrouping | src/pages/CreateListPage.tsx:79-85 | the reduce, folded from the empty accumulator, computes exactly the grouping by category |
| Selection.GroupItems | src/pages/CreateListPage.tsx:79-85 | the accumulator loop returns exactly the grouping by category, each group in original order |
| CreateListPage.Page.constructor | src/pages/CreateListPage.tsx:15-25 | default name, empty search, initial selection, stepper invariant holds, nothing selected |
| CreateListPage.Page.HandleQuantityChange | src/pages/CreateListPage.tsx:27-39 | only the selection changes, by ChangeQuantity, and the stepper invariant is kept |
| CreateListPage.Page.SetSearchTerm | src/pages/CreateListPage.tsx:119 | sets the search term; nothing else changes and the selection invariant is kept |
| CreateListPage.Page.SetListName | src/pages/CreateListPage.tsx:103 | sets the list name; nothing else changes and the selection invariant is kept |
| CreateListPage.Page.HandleDone | src/pages/CreateListPage.tsx:41-61 | emits the converted selected entries, as many as the selected count, to the route's list if there is one, otherwise as a new list with the typed name; while the page's selection is consistent, every emitted quantity is the label of a positive number |
| CreateListPage.Page.GroupedItems | src/pages/CreateListPage.tsx:79-85 | the groups are the grouping of the search result |
| CreateListPage.DoneEmitsSelected | src/pages/CreateListPage.tsx:42-50 | the emitted items number the selected count, and each is the conversion of a selected entry |
| CreateListPage.DoneQuantitiesPositive | src/pages/CreateListPage.tsx:42-50 | when every selected entry has a positive quantity and every other a zero one, every emitted item's quantity is the label of a positive number |
| AddItems.SeedItems | src/components/AddItems.tsx:25-31 | five entries satisfying the stepper invariant; Lettuce is selected with quantity 1 |
| AddItems.SeedSelectsOnlyLettuce | src/components/AddItems.tsx:25-31 | the seed's selected entries are exactly Lettuce, so the selected count starts at 1 |
| AddItems.Panel.constructor | src/components/AddItems.tsx:24-31 | seed selection, empty search, stepper invariant holds |
| AddItems.Panel.HandleQuantityChange | src/components/AddItems.tsx:33-45 | only the selection changes, by ChangeQuantity, and the stepper invariant is kept |
| AddItems.Panel.SetSearchTerm | src/components/AddItems.tsx:90 | sets the search term; the selection is unchanged and its invariant kept |
| AddItems.Panel.HandleDone | src/components/AddItems.tsx:47-52 | passes exactly the selected entries, in order, as many as the selected count; while the panel's selection is consistent, each has a positive quantity |
| AddItems.Panel.GroupedItems | src/components/AddItems.tsx:55-61 | the groups are the grouping of all entries, whatever the search term |
| App.FlippedCount | src/App.tsx:97-99 | counting the old items with the flipped predicate equals counting purchased items after the toggle |
| App.ToggledList | src/App.tsx:88-109 | keeps id, name and total; a list whose invariants hold still satisfies them after the inline toggle |
| App.ToggledListAgrees | src/App.tsx:91-108 | items, purchased, progress and isCompleted equal those of toggleItemInList; total is carried over; with a consistent total the two lists are equal |
| App.ToggleInLists | src/App.tsx:86-113 | same number of lists; lists with another id are unchanged; the list with the open id is toggled inline |
| App.AppendedList | src/App.tsx:127-133 | items and total equal those of addItemsToList; progress is 0; purchased and isCompleted are left as they were |
| App.AppendedListLeavesStatsStale | src/App.tsx:125-136 | a completed one-item list with consistent stats stays marked completed at progress 0 after an unpurchased item is appended, breaking the invariants; addItemsToList gives not completed at 50 |
| App.AppendInLists | src/App.tsx:125-136 | same number of lists; lists with another id are unchanged; the open list is extended by AppendedList |
| App.CreatedList | src/App.tsx:139-147 | given id, typed name and new items; purchased 0, progress 0, not completed, total the item count; these fixed values satisfy the invariants iff no new item is purchased |
| App.CreatedListStatsHold | src/App.tsx:139-147 | for converted selections the created list satisfies the invariants and equals its recomputed form |
| App.FindList | src/App.tsx:155 | None iff no list has the id; otherwise the first list with that id |
| App.Store.CurrentList | src/App.tsx:155 | the shown list is the first stored list with the open id; none is shown only when no list has that id |
| App.Store.constructor | src/App.tsx:28-32 | given lists, no open list, default name, lists screen |
| App.Store.HandleListClick | src/App.tsx:68-71 | opens the list id and shows the shopping view; lists and name unchanged |
| App.Store.HandleAddNewList | src/App.tsx:73-76 | resets the name and shows add-items; the open list id is not cleared |
| App.Store.HandleBackToLists | src/App.tsx:78-80 | shows the lists screen; the open list id is not cleared |
| App.Store.HandleAddMoreItems | src/App.tsx:82-84 | shows add-items; nothing else changes |
| App.Store.SetListName | src/App.tsx:181 | sets the typed name; nothing else changes |
| App.Store.HandleItemToggle | src/App.tsx:86-113 | lists become ToggleInLists for the open id; other fields unchanged |
| App.Store.HandleDoneAddingItems | src/App.tsx:115-153 | converts the selection; with a list open, appends to it and keeps it open; otherwise adds one created list at the end and opens it; always ends on the shopping view |
| App.NewListAfterOpeningAppends | src/App.tsx:68-153 | after opening a list, going back and starting a new list, done extends the opened list and creates nothing |
| App.NewListFromStartCreates | src/App.tsx:137-150 | with no list open, the new-list flow appends exactly one list with the typed name and opens it |

## Left out

- List ids from `Date.now().toString()` (`generateId` and the store's create path): the clock is not modelled, so the new id is a parameter of `App.Store.HandleDoneAddingItems`. Its uniqueness is not guaranteed, as in the source.
- The seed lists hard-coded in the store: `App.Store.constructor` takes the initial lists as a parameter. Those seed lists do not satisfy the statistics invariants, so no invariant is claimed for the initial store.
- The catalog file imported by the create-list page is external data: `CreateListPage.Page.constructor` takes the catalog as a parameter.
- All markup, styling and event wiring; the presentational components and pages; routing. This covers `navigate` in the create-list page's `handleDone` and `handleBack`. `useParams` becomes the page's `listId` field, which is "" when the route has none.
- `CreateListPage.Page.HandleDone` returns a `DoneAction` instead of calling the `onAddItemsToList`/`onCreateList` callbacks. What those callbacks do is not part of this model.
- `progress` is an exact `real`; IEEE-754 rounding of the division is not modelled.
- Numbers are unbounded integers; quantities and changes are integers. `Selection.IntToString` renders integers in decimal. JavaScript's exponent form for magnitudes of 10^21 and above, and non-integer quantities, are not modelled.
- `Selection.Lower` lower-cases ASCII letters only; Unicode case mapping of `toLowerCase` is not modelled.
- The order in which `Object.entries` lists the categories of the grouping: the grouping is an unordered `map`. Order is kept within each group.
- React's asynchronous, batched state updates: each handler is one atomic state change.
- The store's done handler accepts an untyped payload. It is typed here as the panel's selected entries (`SelectedItem`).
- Selection.GroupItems: categories that name a property every object inherits ("constructor", "toString", "valueOf", "hasOwnProperty", "__proto__" and the like) are not modelled as the source behaves. The grouping's accumulator is a plain `{}` object, so for such a category `acc[category]` is already defined and is not an array, and the push throws. The model gives such a category its own group, as it does any other. `Selection.GroupedIsPartition` and both pages' `GroupedItems` inherit this.
