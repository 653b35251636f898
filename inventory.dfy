/** The records of the inventory (`InventoryItem`, `InventoryMovement`, the
    form values an item is created or edited from) and the low-stock test
    that the list badge, the dashboard and the ledger's notice share. */
module Inventory {

  datatype Option<+T> = None | Some(value: T)

  datatype Result<+R, +E> = Success(value: R) | Failure(error: E)

  /** A point in time. The source keeps ISO-8601 strings, whose order as
      strings is their chronological order; the model keeps the instant. */
  type Timestamp = int

  /** `InventoryItem`. `category` is '' when the item has none. The readers
      do not all treat a missing and an empty category alike (the list's
      sort comparator sends `undefined` down its own branches), but the
      store writes '' whenever the form leaves the category out, so a
      missing category never reaches them. */
  datatype Item = Item(
    id: string,
    name: string,
    description: string,
    quantity: int,
    price: Option<real>,
    category: string,
    dateAdded: Timestamp,
    lastUpdated: Timestamp,
    lowStockThreshold: Option<int>)

  /** `InventoryMovementType` */
  datatype MovementType = Entrada | Salida

  /** `InventoryMovement`: one logged change of one item's quantity; the
      magnitude is `quantityChanged`, the direction is `kind`. */
  datatype Movement = Movement(
    id: string,
    itemId: string,
    itemName: string,
    kind: MovementType,
    quantityChanged: int,
    reason: string,
    date: Timestamp)

  /** `InventoryItemFormValues` once the item form has coerced its numbers. */
  datatype ItemFormValues = ItemFormValues(
    name: string,
    description: Option<string>,
    quantity: int,
    price: Option<real>,
    category: Option<string>,
    lowStockThreshold: Option<int>)

  /** The string a movement type is stored and filtered as. */
  function TypeName(t: MovementType): string {
    match t
    case Entrada => "entrada"
    case Salida => "salida"
  }

  /** An item is low on stock when it has a numeric threshold and its
      quantity is strictly below it. */
  predicate IsLowStock(item: Item) {
    item.lowStockThreshold.Some? && item.quantity < item.lowStockThreshold.value
  }
}
