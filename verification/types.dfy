/** The records shared by the list layer and the item-selection screens. */
module Types {

  /** One entry of a grocery list; `quantity` is an already formatted display string. */
  datatype ShoppingItem = ShoppingItem(id: string, name: string, quantity: string, isPurchased: bool)

  /** A named list with its items and the statistics derived from them. */
  datatype GroceryList = GroceryList(
    id: string,
    name: string,
    purchased: int,
    total: int,
    progress: real,
    isCompleted: bool,
    items: seq<ShoppingItem>)

  /** An entry of the read-only catalog. */
  datatype MasterItem = MasterItem(id: string, name: string, category: string)

  /** A catalog entry together with the quantity the user has picked so far. */
  datatype SelectedItem = SelectedItem(id: string, name: string, category: string, quantity: int, isSelected: bool)

  /** The three screens of the application. */
  datatype Screen = MyListsScreen | AddItemsScreen | ShoppingViewScreen

  /** The placeholder name a list being created starts with. */
  const NewListName: string := "New List Name"

  datatype Option<T> = None | Some(value: T)
}
