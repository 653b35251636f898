/** The inventory ledger (`useInventory`): the item and movement collections,
    the mutators that change an item's quantity and log a movement with the
    change, the low-stock edge trigger, and the reads gated on the store
    having loaded its collections. */
module InventoryStore {
  import opened Inventory
  import Seqs
  import Sorting

  const InitialReason := "Alta inicial de artículo"
  const EditIncreaseReason := "Compra de producto"
  const EditDecreaseReason := "Venta de producto"
  /** Defaults of the `reason` parameters of the two adjustment helpers. */
  const DefaultIncrementReason := "Ajuste manual (incremento)"
  const DefaultDecrementReason := "Ajuste manual (decremento)"

  function Min(a: int, b: int): int {
    if a <= b then a else b
  }

  // ---------------------------------------------------------------------
  // Lookups

  /** `items.find(item => item.id === id)`: the first item with that id. */
  function FindItem(items: seq<Item>, id: string): (r: Option<Item>)
    ensures r.None? <==> forall i :: 0 <= i < |items| ==> items[i].id != id
    ensures r.Some? ==> r.value.id == id && exists k :: FirstWithId(items, id, k) && items[k] == r.value
  {
    if items == [] then None
    else if items[0].id == id then
      assert FirstWithId(items, id, 0);
      Some(items[0])
    else
      var r := FindItem(items[1..], id);
      if r.Some? then
        var k :| FirstWithId(items[1..], id, k) && items[1..][k] == r.value;
        assert FirstWithId(items, id, k + 1);
        r
      else r
  }

  /** `k` is the index of the first item whose id is `id`. */
  predicate FirstWithId(items: seq<Item>, id: string, k: int) {
    0 <= k < |items| && items[k].id == id && forall j :: 0 <= j < k ==> items[j].id != id
  }

  /** `prevItems.map(item => item.id === id ? replacement : item)` */
  function ReplaceById(items: seq<Item>, id: string, replacement: Item): (r: seq<Item>)
    ensures |r| == |items|
  {
    seq(|items|, i requires 0 <= i < |items| => if items[i].id == id then replacement else items[i])
  }

  /** `prevItems.filter(item => item.id !== id)` */
  function RemoveById(items: seq<Item>, id: string): seq<Item> {
    Seqs.Filter(items, (item: Item) => item.id != id)
  }

  // ---------------------------------------------------------------------
  // Building items from form values

  /** `value ? Number(value) : undefined`: absent and zero both become absent. */
  function PriceOrUndefined(price: Option<real>): (r: Option<real>)
    ensures r == None <==> price == None || price == Some(0.0)
    ensures r.Some? ==> r == price
  {
    if price.Some? && price.value != 0.0 then price else None
  }

  /** The same truthiness test applied to the low-stock threshold. */
  function ThresholdOrUndefined(threshold: Option<int>): (r: Option<int>)
    ensures r == None <==> threshold == None || threshold == Some(0)
    ensures r.Some? ==> r == threshold
  {
    if threshold.Some? && threshold.value != 0 then threshold else None
  }

  /** `value || ''` */
  function OrEmpty(s: Option<string>): string {
    if s.Some? then s.value else ""
  }

  /** The item `addItem` creates. */
  function CreatedItem(data: ItemFormValues, id: string, now: Timestamp): (r: Item)
    ensures r.id == id && r.name == data.name && r.quantity == data.quantity
    ensures r.dateAdded == now && r.lastUpdated == now
    ensures r.description == OrEmpty(data.description) && r.category == OrEmpty(data.category)
    ensures r.price == PriceOrUndefined(data.price)
    ensures r.lowStockThreshold == ThresholdOrUndefined(data.lowStockThreshold)
  {
    Item(id, data.name, OrEmpty(data.description), data.quantity, PriceOrUndefined(data.price),
         OrEmpty(data.category), now, now, ThresholdOrUndefined(data.lowStockThreshold))
  }

  /** The item `updateItem` writes back: every field from the form except the
      id and the creation date, which it keeps. */
  function EditedItem(before: Item, data: ItemFormValues, now: Timestamp): (r: Item)
    ensures r.id == before.id && r.dateAdded == before.dateAdded
    ensures r.name == data.name && r.quantity == data.quantity && r.lastUpdated == now
    ensures r.description == OrEmpty(data.description) && r.category == OrEmpty(data.category)
    ensures r.price == PriceOrUndefined(data.price)
    ensures r.lowStockThreshold == ThresholdOrUndefined(data.lowStockThreshold)
  {
    before.(name := data.name, description := OrEmpty(data.description), quantity := data.quantity,
            price := PriceOrUndefined(data.price), category := OrEmpty(data.category),
            lastUpdated := now, lowStockThreshold := ThresholdOrUndefined(data.lowStockThreshold))
  }

  /** The item after `amount` units came in at `now`. */
  function Restocked(before: Item, amount: int, now: Timestamp): (r: Item)
    ensures r.id == before.id && r.name == before.name && r.quantity == before.quantity + amount
    ensures r.lastUpdated == now
  {
    before.(quantity := before.quantity + amount, lastUpdated := now)
  }

  /** The item after `amount` units went out at `now`. */
  function Withdrawn(before: Item, amount: int, now: Timestamp): (r: Item)
    ensures r.id == before.id && r.name == before.name && r.quantity == before.quantity - amount
    ensures r.lastUpdated == now
  {
    before.(quantity := before.quantity - amount, lastUpdated := now)
  }

  // ---------------------------------------------------------------------
  // The low-stock edge trigger

  /** Where a quantity stands against an item's threshold. With no threshold
      an item is never below it. */
  datatype StockLevel = AtOrAbove | Below

  function Level(quantity: int, threshold: Option<int>): StockLevel {
    if threshold.Some? && quantity < threshold.value then Below else AtOrAbove
  }

  /** The edge trigger as a state machine: a notice is due when the item
      enters `Below` from `AtOrAbove` or from no state at all (creation). */
  predicate EntersBelow(before: Option<StockLevel>, after: StockLevel) {
    after == Below && before != Some(Below)
  }

  /** `checkAndNotifyLowStock(item, oldQuantity)`: whether the toast is shown. */
  function LowStockNotice(item: Item, oldQuantity: Option<int>): (notify: bool)
    ensures notify ==> IsLowStock(item)
    ensures notify <==> EntersBelow(
      if oldQuantity.None? then None else Some(Level(oldQuantity.value, item.lowStockThreshold)),
      Level(item.quantity, item.lowStockThreshold))
  {
    if item.lowStockThreshold.Some? && item.quantity < item.lowStockThreshold.value then
      var justCrossedThreshold := oldQuantity.Some? && oldQuantity.value >= item.lowStockThreshold.value;
      var isNewAndLow := oldQuantity.None?;
      justCrossedThreshold || isNewAndLow
    else false
  }

  /** Number of notices along a history of quantities of one item: the first
      quantity is the one it was created with, each later one is compared
      with its predecessor. */
  function NoticeCount(item: Item, qs: seq<int>): nat {
    if qs == [] then 0
    else
      var last := |qs| - 1;
      NoticeCount(item, qs[..last])
      + (if LowStockNotice(item.(quantity := qs[last]), if last == 0 then None else Some(qs[last - 1])) then 1 else 0)
  }

  /** Number of steps along the history where the item climbs back from
      below its threshold to at or above it. */
  function RecoveryCount(item: Item, qs: seq<int>): nat {
    if |qs| < 2 then 0
    else
      var last := |qs| - 1;
      RecoveryCount(item, qs[..last])
      + (if Level(qs[last - 1], item.lowStockThreshold) == Below
            && Level(qs[last], item.lowStockThreshold) == AtOrAbove then 1 else 0)
  }

  /** The notice fires once per low spell: every notice but the one for a
      spell still in progress is matched by a later recovery. */
  lemma {:induction false} OneNoticePerLowSpell(item: Item, qs: seq<int>)
    ensures NoticeCount(item, qs) == RecoveryCount(item, qs)
      + (if qs != [] && Level(qs[|qs| - 1], item.lowStockThreshold) == Below then 1 else 0)
  {
    if |qs| >= 2 {
      var last := |qs| - 1;
      assert qs[..last][..last - 1] == qs[..last - 1];
      OneNoticePerLowSpell(item, qs[..last]);
    } else if |qs| == 1 {
      assert qs[..0] == [];
    }
  }

  // ---------------------------------------------------------------------
  // The ledger invariant

  /** Sum of the `entrada` magnitudes logged for `id`. */
  function Inflow(ms: seq<Movement>, id: string): int {
    if ms == [] then 0
    else (if ms[0].itemId == id && ms[0].kind == Entrada then ms[0].quantityChanged else 0) + Inflow(ms[1..], id)
  }

  /** Sum of the `salida` magnitudes logged for `id`. */
  function Outflow(ms: seq<Movement>, id: string): int {
    if ms == [] then 0
    else (if ms[0].itemId == id && ms[0].kind == Salida then ms[0].quantityChanged else 0) + Outflow(ms[1..], id)
  }

  /** The signed change a movement records. */
  function SignedChange(m: Movement): int {
    if m.kind == Entrada then m.quantityChanged else -m.quantityChanged
  }

  /** Net flow for `id`: what its quantity must be if it was logged from zero. */
  function Balance(ms: seq<Movement>, id: string): int {
    Inflow(ms, id) - Outflow(ms, id)
  }

  predicate UniqueIds(items: seq<Item>) {
    forall i, j :: 0 <= i < j < |items| ==> items[i].id != items[j].id
  }

  predicate NonNegative(items: seq<Item>) {
    forall i :: 0 <= i < |items| ==> items[i].quantity >= 0
  }

  predicate PositiveMagnitudes(ms: seq<Movement>) {
    forall k :: 0 <= k < |ms| ==> ms[k].quantityChanged > 0
  }

  /** Every item's quantity is its entradas minus its salidas. */
  predicate Balanced(items: seq<Item>, ms: seq<Movement>) {
    forall i :: 0 <= i < |items| ==> items[i].quantity == Balance(ms, items[i].id)
  }

  /** The ledger invariant the mutators keep. */
  predicate Consistent(items: seq<Item>, ms: seq<Movement>) {
    UniqueIds(items) && NonNegative(items) && PositiveMagnitudes(ms) && Balanced(items, ms)
  }

  /** `id` names no item and no movement (a fresh `randomUUID`). */
  predicate FreshId(items: seq<Item>, ms: seq<Movement>, id: string) {
    (forall i :: 0 <= i < |items| ==> items[i].id != id)
    && (forall k :: 0 <= k < |ms| ==> ms[k].itemId != id)
  }

  /** `after` is `before` with one movement for `id` prepended whose signed
      change is `delta`, or `before` itself when `delta` is zero. */
  predicate LogsChange(before: seq<Movement>, after: seq<Movement>, id: string, delta: int) {
    if delta == 0 then after == before
    else |after| == |before| + 1 && after[1..] == before && after[0].itemId == id
         && after[0].quantityChanged > 0 && SignedChange(after[0]) == delta
  }

  lemma PrependFlow(m: Movement, ms: seq<Movement>, id: string)
    ensures Balance([m] + ms, id) == Balance(ms, id) + (if m.itemId == id then SignedChange(m) else 0)
  {
    assert ([m] + ms)[1..] == ms;
  }

  lemma {:induction false} NoMovementsNoBalance(ms: seq<Movement>, id: string)
    requires forall k :: 0 <= k < |ms| ==> ms[k].itemId != id
    ensures Inflow(ms, id) == 0 && Outflow(ms, id) == 0
  {
    if ms != [] {
      NoMovementsNoBalance(ms[1..], id);
    }
  }

  /** Logging a change for one item leaves every other item's balance alone
      and moves that item's balance by the change. */
  lemma LogsChangeBalance(before: seq<Movement>, after: seq<Movement>, id: string, delta: int, other: string)
    requires LogsChange(before, after, id, delta)
    ensures Balance(after, other) == Balance(before, other) + (if other == id then delta else 0)
  {
    if delta != 0 {
      assert after == [after[0]] + before;
      PrependFlow(after[0], before, other);
    }
  }

  /** `addItem` keeps the ledger invariant when the new id is fresh and the
      quantity is non-negative. */
  lemma AddItemKeepsConsistent(items: seq<Item>, ms: seq<Movement>, item: Item, ms': seq<Movement>)
    requires Consistent(items, ms)
    requires FreshId(items, ms, item.id)
    requires item.quantity >= 0
    requires LogsChange(ms, ms', item.id, item.quantity)
    ensures Consistent(items + [item], ms')
  {
    var items' := items + [item];
    forall i | 0 <= i < |items'|
      ensures items'[i].quantity == Balance(ms', items'[i].id)
    {
      LogsChangeBalance(ms, ms', item.id, item.quantity, items'[i].id);
      if i == |items| {
        NoMovementsNoBalance(ms, item.id);
      }
    }
  }

  /** Replacing the item with id `id` by one with a new quantity, while
      logging the difference, keeps the ledger invariant. */
  lemma ReplaceKeepsConsistent(items: seq<Item>, ms: seq<Movement>, id: string, before: Item, after: Item, ms': seq<Movement>)
    requires Consistent(items, ms)
    requires FindItem(items, id) == Some(before)
    requires after.id == id && after.quantity >= 0
    requires LogsChange(ms, ms', id, after.quantity - before.quantity)
    ensures Consistent(ReplaceById(items, id, after), ms')
  {
    var items' := ReplaceById(items, id, after);
    var k :| FirstWithId(items, id, k) && items[k] == before;
    forall i | 0 <= i < |items'|
      ensures items'[i].quantity == Balance(ms', items'[i].id)
    {
      LogsChangeBalance(ms, ms', id, after.quantity - before.quantity, items'[i].id);
      if items[i].id == id {
        assert i == k;
      }
    }
  }

  /** The item a lookup finds in a non-negative collection holds a
      non-negative quantity. */
  lemma FoundNonNegative(items: seq<Item>, id: string)
    requires NonNegative(items) && FindItem(items, id).Some?
    ensures FindItem(items, id).value.quantity >= 0
  {
    var k :| FirstWithId(items, id, k) && items[k] == FindItem(items, id).value;
  }

  /** Changing one item's quantity while logging one movement for the
      difference keeps the ledger invariant. */
  lemma AdjustKeepsConsistent(items: seq<Item>, ms: seq<Movement>, id: string, after: Item, m: Movement)
    requires Consistent(items, ms) && FindItem(items, id).Some?
    requires after.id == id && after.quantity >= 0
    requires m.itemId == id && m.quantityChanged > 0
    requires SignedChange(m) == after.quantity - FindItem(items, id).value.quantity
    ensures Consistent(ReplaceById(items, id, after), [m] + ms)
  {
    var before := FindItem(items, id).value;
    assert LogsChange(ms, [m] + ms, id, after.quantity - before.quantity) by {
      assert ([m] + ms)[1..] == ms;
    }
    ReplaceKeepsConsistent(items, ms, id, before, after, [m] + ms);
  }

  lemma {:induction false} RemoveKeepsUniqueIds(items: seq<Item>, id: string)
    requires UniqueIds(items)
    ensures UniqueIds(RemoveById(items, id))
  {
    if items != [] {
      RemoveKeepsUniqueIds(items[1..], id);
      var rest := RemoveById(items[1..], id);
      forall x | x in rest
        ensures x.id != items[0].id
      {
        var j :| 0 <= j < |items[1..]| && items[1..][j] == x;
        assert items[j + 1] == x;
      }
    }
  }

  /** `deleteItem` keeps the ledger invariant. */
  lemma RemoveKeepsConsistent(items: seq<Item>, ms: seq<Movement>, id: string)
    requires Consistent(items, ms)
    ensures Consistent(RemoveById(items, id), ms)
  {
    RemoveKeepsUniqueIds(items, id);
    var r := RemoveById(items, id);
    forall i | 0 <= i < |r|
      ensures r[i].quantity >= 0 && r[i].quantity == Balance(ms, r[i].id)
    {
      assert r[i] in items;
    }
  }

  // ---------------------------------------------------------------------
  // The store

  datatype LedgerError = NotFound | InvalidQuantity | InsufficientStock

  class Store {
    var items: seq<Item>
    var movements: seq<Movement>
    var initialized: bool

    /** The hook's first render: empty collections, not yet loaded. */
    constructor ()
      ensures items == [] && movements == [] && !initialized
    {
      items := [];
      movements := [];
      initialized := false;
    }

    /** The mount effect: adopt the persisted collections (empty when nothing
        was stored or it could not be read) and mark the store loaded. */
    method Initialize(storedItems: seq<Item>, storedMovements: seq<Movement>)
      modifies this
      ensures items == storedItems && movements == storedMovements && initialized
    {
      items := storedItems;
      movements := storedMovements;
      initialized := true;
    }

    /** The `items` the hook hands out: empty until the store has loaded. */
    function VisibleItems(): (r: seq<Item>)
      reads this
      ensures !initialized ==> r == []
      ensures initialized ==> r == items
    {
      if initialized then items else []
    }

    /** The `movements` the hook hands out: empty until the store has loaded. */
    function VisibleMovements(): (r: seq<Movement>)
      reads this
      ensures !initialized ==> r == []
      ensures initialized ==> r == movements
    {
      if initialized then movements else []
    }

    /** `getItemById` */
    function GetItemById(id: string): (r: Option<Item>)
      reads this
      ensures !initialized ==> r == None
      ensures r.Some? ==> r.value.id == id && exists k :: FirstWithId(items, id, k) && items[k] == r.value
      ensures initialized && r.None? ==> forall i :: 0 <= i < |items| ==> items[i].id != id
    {
      if !initialized then None else FindItem(items, id)
    }

    /** `getMovementsByItemId`: that item's movements, newest first. */
    method GetMovementsByItemId(itemId: string) returns (r: seq<Movement>)
      ensures !initialized ==> r == []
      ensures initialized ==> multiset(r) == multiset(Seqs.Filter(movements, (m: Movement) => m.itemId == itemId))
      ensures forall m :: m in r <==> initialized && m in movements && m.itemId == itemId
      ensures forall i :: 0 < i < |r| ==> r[i - 1].date >= r[i].date
    {
      if !initialized {
        return [];
      }
      var matching := Seqs.Filter(movements, (m: Movement) => m.itemId == itemId);
      var a := new Movement[|matching|](i requires 0 <= i < |matching| => matching[i]);
      assert a[..] == matching;
      Sorting.Sort(a, (x: Movement, y: Movement) => y.date - x.date);
      r := a[..];
      assert forall m :: m in r <==> m in multiset(matching);
    }

    /** `addMovement`: log one movement, newest first, unless the change is
        not positive. */
    method AddMovement(itemId: string, itemName: string, kind: MovementType, quantityChanged: int,
                       reason: string, movementId: string, now: Timestamp)
      modifies this`movements
      ensures quantityChanged <= 0 ==> movements == old(movements)
      ensures quantityChanged > 0 ==>
        movements == [Movement(movementId, itemId, itemName, kind, quantityChanged, reason, now)] + old(movements)
    {
      if quantityChanged <= 0 {
        return;
      }
      var magnitude := if quantityChanged < 0 then -quantityChanged else quantityChanged;
      var newMovement := Movement(movementId, itemId, itemName, kind, magnitude, reason, now);
      movements := [newMovement] + movements;
    }

    /** `addItem` */
    method AddItem(data: ItemFormValues, itemId: string, movementId: string, now: Timestamp)
      returns (newItem: Item, notified: bool)
      modifies this`items, this`movements
      ensures newItem == CreatedItem(data, itemId, now)
      ensures items == old(items) + [newItem]
      ensures movements == if data.quantity > 0
        then [Movement(movementId, itemId, data.name, Entrada, data.quantity, InitialReason, now)] + old(movements)
        else old(movements)
      ensures notified == LowStockNotice(newItem, None)
      ensures old(Consistent(items, movements)) && FreshId(old(items), old(movements), itemId) && data.quantity >= 0
        ==> Consistent(items, movements)
    {
      ghost var items0, movements0 := items, movements;
      newItem := CreatedItem(data, itemId, now);
      items := items + [newItem];
      if data.quantity > 0 {
        AddMovement(newItem.id, newItem.name, Entrada, data.quantity, InitialReason, movementId, now);
      }
      notified := LowStockNotice(newItem, None);
      if Consistent(items0, movements0) && FreshId(items0, movements0, itemId) && data.quantity >= 0 {
        AddItemKeepsConsistent(items0, movements0, newItem, movements);
      }
    }

    /** `updateItem` */
    method UpdateItem(id: string, data: ItemFormValues, movementId: string, now: Timestamp)
      returns (updated: Option<Item>, notified: bool)
      modifies this`items, this`movements
      ensures FindItem(old(items), id).None? ==>
        updated.None? && !notified && items == old(items) && movements == old(movements)
      ensures FindItem(old(items), id).Some? ==>
        var before := FindItem(old(items), id).value;
        && updated == Some(EditedItem(before, data, now))
        && items == ReplaceById(old(items), id, updated.value)
        && movements == (
             if data.quantity > before.quantity then
               [Movement(movementId, id, data.name, Entrada, data.quantity - before.quantity, EditIncreaseReason, now)] + old(movements)
             else if data.quantity < before.quantity then
               [Movement(movementId, id, data.name, Salida, before.quantity - data.quantity, EditDecreaseReason, now)] + old(movements)
             else old(movements))
        && notified == LowStockNotice(updated.value, Some(before.quantity))
      ensures old(Consistent(items, movements)) && data.quantity >= 0 ==> Consistent(items, movements)
    {
      var itemToUpdate := FindItem(items, id);
      if itemToUpdate.None? {
        return None, false;
      }
      ghost var items0, movements0 := items, movements;
      var oldQuantityValue := itemToUpdate.value.quantity;
      var updatedItemObject := EditedItem(itemToUpdate.value, data, now);
      assert updatedItemObject.id == id && updatedItemObject.name == data.name;
      items := ReplaceById(items, id, updatedItemObject);
      var quantityDifference := updatedItemObject.quantity - oldQuantityValue;
      if quantityDifference > 0 {
        AddMovement(updatedItemObject.id, updatedItemObject.name, Entrada, quantityDifference, EditIncreaseReason, movementId, now);
      } else if quantityDifference < 0 {
        AddMovement(updatedItemObject.id, updatedItemObject.name, Salida, -quantityDifference, EditDecreaseReason, movementId, now);
      }
      notified := LowStockNotice(updatedItemObject, Some(oldQuantityValue));
      updated := Some(updatedItemObject);
      if Consistent(items0, movements0) && data.quantity >= 0 {
        if quantityDifference == 0 {
          ReplaceKeepsConsistent(items0, movements0, id, itemToUpdate.value, updatedItemObject, movements0);
        } else {
          AdjustKeepsConsistent(items0, movements0, id, updatedItemObject, movements[0]);
        }
      }
    }

    /** `deleteItem`: drop every item with that id; movements stay. */
    method DeleteItem(id: string)
      modifies this`items
      ensures items == RemoveById(old(items), id)
      ensures forall x :: x in items <==> x in old(items) && x.id != id
      ensures movements == old(movements)
      ensures old(Consistent(items, movements)) ==> Consistent(items, movements)
    {
      ghost var items0 := items;
      items := RemoveById(items, id);
      if Consistent(items0, movements) {
        RemoveKeepsConsistent(items0, movements, id);
      }
    }

    /** `incrementItemQuantity` */
    method IncrementItemQuantity(id: string, amount: int, reason: string, movementId: string, now: Timestamp)
      returns (notified: bool)
      modifies this`items, this`movements
      ensures !notified
      ensures FindItem(old(items), id).None? || amount <= 0 ==>
        items == old(items) && movements == old(movements)
      ensures FindItem(old(items), id).Some? && amount > 0 ==>
        var before := FindItem(old(items), id).value;
        && items == ReplaceById(old(items), id, Restocked(before, amount, now))
        && movements == [Movement(movementId, id, before.name, Entrada, amount, reason, now)] + old(movements)
      ensures old(Consistent(items, movements)) ==> Consistent(items, movements)
    {
      var itemToUpdate := FindItem(items, id);
      if itemToUpdate.None? || amount <= 0 {
        return false;
      }
      ghost var items0, movements0 := items, movements;
      var oldQuantityValue := itemToUpdate.value.quantity;
      var updatedItemObject := Restocked(itemToUpdate.value, amount, now);
      items := ReplaceById(items, id, updatedItemObject);
      AddMovement(id, updatedItemObject.name, Entrada, amount, reason, movementId, now);
      notified := LowStockNotice(updatedItemObject, Some(oldQuantityValue));
      if Consistent(items0, movements0) {
        FoundNonNegative(items0, id);
        AdjustKeepsConsistent(items0, movements0, id, updatedItemObject, movements[0]);
      }
    }

    /** `decrementItemQuantity`: removes at most what is in stock. */
    method DecrementItemQuantity(id: string, amount: int, reason: string, movementId: string, now: Timestamp)
      returns (notified: bool)
      modifies this`items, this`movements
      ensures FindItem(old(items), id).None? || amount <= 0
              || Min(amount, FindItem(old(items), id).value.quantity) <= 0 ==>
        !notified && items == old(items) && movements == old(movements)
      ensures FindItem(old(items), id).Some? && amount > 0
              && Min(amount, FindItem(old(items), id).value.quantity) > 0 ==>
        var before := FindItem(old(items), id).value;
        var removed := Min(amount, before.quantity);
        var after := Withdrawn(before, removed, now);
        && after.quantity >= 0
        && items == ReplaceById(old(items), id, after)
        && movements == [Movement(movementId, id, before.name, Salida, removed, reason, now)] + old(movements)
        && notified == LowStockNotice(after, Some(before.quantity))
      ensures old(Consistent(items, movements)) ==> Consistent(items, movements)
    {
      var itemToUpdate := FindItem(items, id);
      if itemToUpdate.None? || amount <= 0 {
        return false;
      }
      var oldQuantityValue := itemToUpdate.value.quantity;
      var actualAmountToDecrement := Min(amount, oldQuantityValue);
      if actualAmountToDecrement <= 0 {
        return false;
      }
      ghost var items0, movements0 := items, movements;
      var updatedItemObject := Withdrawn(itemToUpdate.value, actualAmountToDecrement, now);
      items := ReplaceById(items, id, updatedItemObject);
      var logged := oldQuantityValue - updatedItemObject.quantity;
      assert logged == actualAmountToDecrement;
      notified := false;
      if logged > 0 {
        AddMovement(id, updatedItemObject.name, Salida, logged, reason, movementId, now);
        notified := LowStockNotice(updatedItemObject, Some(oldQuantityValue));
      }
      if Consistent(items0, movements0) {
        AdjustKeepsConsistent(items0, movements0, id, updatedItemObject, movements[0]);
      }
    }

    /** The `recordStockOutput` the stock-output form calls. The store as
        written does not provide it; this is the contract the form expects:
        reject an unknown id, a non-positive quantity or more than is in
        stock without changing anything, otherwise take exactly `quantity`
        out and log it. */
    method RecordStockOutput(id: string, quantity: int, reason: string, movementId: string, now: Timestamp)
      returns (r: Result<Item, LedgerError>, notified: bool)
      modifies this`items, this`movements
      ensures FindItem(old(items), id).None? ==> r == Failure(NotFound)
      ensures FindItem(old(items), id).Some? && quantity <= 0 ==> r == Failure(InvalidQuantity)
      ensures FindItem(old(items), id).Some? && 0 < quantity && quantity > FindItem(old(items), id).value.quantity
              ==> r == Failure(InsufficientStock)
      ensures r.Success? <==> FindItem(old(items), id).Some? && 0 < quantity <= FindItem(old(items), id).value.quantity
      ensures r.Failure? ==> !notified && items == old(items) && movements == old(movements)
      ensures r.Success? ==>
        var before := FindItem(old(items), id).value;
        && 0 < quantity <= before.quantity
        && r.value == Withdrawn(before, quantity, now)
        && items == ReplaceById(old(items), id, r.value)
        && movements == [Movement(movementId, id, before.name, Salida, quantity, reason, now)] + old(movements)
        && notified == LowStockNotice(r.value, Some(before.quantity))
      ensures old(Consistent(items, movements)) ==> Consistent(items, movements)
    {
      var found := FindItem(items, id);
      if found.None? {
        return Failure(NotFound), false;
      }
      if quantity <= 0 {
        return Failure(InvalidQuantity), false;
      }
      if quantity > found.value.quantity {
        return Failure(InsufficientStock), false;
      }
      ghost var items0, movements0 := items, movements;
      var after := Withdrawn(found.value, quantity, now);
      items := ReplaceById(items, id, after);
      AddMovement(id, after.name, Salida, quantity, reason, movementId, now);
      notified := LowStockNotice(after, Some(found.value.quantity));
      r := Success(after);
      if Consistent(items0, movements0) {
        AdjustKeepsConsistent(items0, movements0, id, after, movements[0]);
      }
    }
  }
}
