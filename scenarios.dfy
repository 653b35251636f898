/** Concrete runs of the ledger on a fresh store, each stating the outcome
    of a short sequence of operations. */
module LedgerScenarios {
  import opened Inventory
  import opened InventoryStore
  import MovementList

  /** One item with threshold 5, created with 10 and then taken to 3, 2, 6
      and 4: the notice fires when it first drops below 5, stays silent
      while it remains below and on the way back up, and fires again on the
      next drop after the recovery. */
  method LowStockEdgeTrigger() returns (notices: seq<bool>, finalQuantity: int)
    ensures notices == [false, true, false, false, true]
    ensures finalQuantity == 4
  {
    var store := new Store();
    store.Initialize([], []);
    var data := ItemFormValues("Tornillos", None, 10, None, None, Some(5));
    var item, n0 := store.AddItem(data, "a", "m1", 1);
    var n1 := store.DecrementItemQuantity("a", 7, "venta", "m2", 2);
    var n2 := store.DecrementItemQuantity("a", 1, "venta", "m3", 3);
    var n3 := store.IncrementItemQuantity("a", 4, "compra", "m4", 4);
    var n4 := store.DecrementItemQuantity("a", 2, "venta", "m5", 5);
    notices := [n0, n1, n2, n3, n4];
    finalQuantity := store.items[0].quantity;
  }

  /** Asking to take 100 out of 4 takes the 4 that are there and logs a
      `salida` of 4, not of 100. */
  method DecrementClamps() returns (quantity: int, logged: Movement, count: nat)
    ensures quantity == 0
    ensures logged == Movement("m2", "a", "Tuercas", Salida, 4, "ajuste", 2)
    ensures count == 2
  {
    var store := new Store();
    store.Initialize([], []);
    var item, _ := store.AddItem(ItemFormValues("Tuercas", None, 4, None, None, None), "a", "m1", 1);
    var _ := store.DecrementItemQuantity("a", 100, "ajuste", "m2", 2);
    quantity := store.items[0].quantity;
    logged := store.movements[0];
    count := |store.movements|;
  }

  /** Deleting an item keeps its history, whose rows then show the item
      as deleted. */
  method DeleteKeepsHistory() returns (remaining: seq<Item>, history: seq<Movement>, shownAsDeleted: bool)
    ensures remaining == []
    ensures |history| == 1 && history[0].itemId == "a"
    ensures shownAsDeleted
  {
    var store := new Store();
    store.Initialize([], []);
    var item, _ := store.AddItem(ItemFormValues("Arandelas", None, 3, None, None, None), "a", "m1", 1);
    store.DeleteItem("a");
    remaining := store.items;
    history := store.movements;
    shownAsDeleted := !MovementList.DoesItemExist(store.items, history[0].itemId);
  }
}
