/** The stock-output form: it looks up the chosen item, and on submit it
    guards against a missing selection and an over-withdrawal before it
    asks the ledger to take the stock out. */
module StockOutputForm {
  import opened Inventory
  import InventoryStore
  import ItemSchema
  import Text

  const SelectItemMessage := "Por favor, selecciona un artículo."
  const OutputFailedMessage := "No se pudo registrar la salida."
  /** Where a recorded output sends the user. */
  const AfterOutputPath := "/inventario"

  /** The field error for a request above the stock. */
  function TooManyMessage(stock: int): string {
    "No puedes retirar más de " + Text.IntToString(stock) + " unidades."
  }

  /** `Number(data.quantity) > selectedItem.quantity`; every comparison with
      `NaN` is false, so `NaN` never exceeds the stock. */
  predicate ExceedsStock(quantity: ItemSchema.Coerced, stock: int) {
    quantity.Finite? && quantity.value > stock as real
  }

  /** The arguments the form hands to `recordStockOutput`. */
  datatype LedgerCall = LedgerCall(itemId: string, quantity: ItemSchema.Coerced, reason: string)

  /** How the ledger call ended: it threw, or it returned a value whose
      truthiness is `success`. */
  datatype LedgerReply = Threw | Returned(success: bool)

  /** What one submit does: the ledger call it makes, the error toast it
      shows, the field error it sets and where it navigates. */
  datatype Submission = Submission(
    call: Option<LedgerCall>,
    toast: Option<string>,
    quantityError: Option<string>,
    navigateTo: Option<string>)

  /** The outcome of `onSubmit` for a selection and a ledger reply. */
  function Submit(selected: Option<Item>, itemId: string, quantity: ItemSchema.Coerced, reason: string,
                  reply: LedgerReply): Submission {
    if selected.None? then Submission(None, Some(SelectItemMessage), None, None)
    else if ExceedsStock(quantity, selected.value.quantity) then
      Submission(None, None, Some(TooManyMessage(selected.value.quantity)), None)
    else
      var call := Some(LedgerCall(itemId, quantity, reason));
      match reply
      case Threw => Submission(call, Some(OutputFailedMessage), None, None)
      case Returned(success) => Submission(call, None, None, if success then Some(AfterOutputPath) else None)
  }

  /** The ledger is called only for a selected item and never for more
      than that item holds; there is no clamping, the request is refused. */
  lemma GuardBeforeLedger(selected: Option<Item>, itemId: string, quantity: ItemSchema.Coerced, reason: string,
                          reply: LedgerReply)
    ensures var s := Submit(selected, itemId, quantity, reason, reply);
      && (s.call.Some? <==> selected.Some? && !ExceedsStock(quantity, selected.value.quantity))
      && (s.call.Some? ==> s.call.value == LedgerCall(itemId, quantity, reason))
      && (s.call.Some? && quantity.Finite? ==> quantity.value <= selected.value.quantity as real)
      && (selected.Some? && ExceedsStock(quantity, selected.value.quantity) ==>
            s.quantityError.Some? && s.toast.None? && s.navigateTo.None?)
  {
  }

  /** Navigation follows exactly a truthy ledger result; a thrown error
      becomes the error toast; a failed submit sets either a toast or a
      field error, never both. */
  lemma NavigateOnlyOnSuccess(selected: Option<Item>, itemId: string, quantity: ItemSchema.Coerced, reason: string,
                              reply: LedgerReply)
    ensures var s := Submit(selected, itemId, quantity, reason, reply);
      && (s.navigateTo.Some? <==> s.call.Some? && reply == Returned(true))
      && (s.navigateTo.Some? ==> s.navigateTo.value == AfterOutputPath && s.toast.None? && s.quantityError.None?)
      && (s.toast == Some(OutputFailedMessage) <==> s.call.Some? && reply == Threw)
      && !(s.toast.Some? && s.quantityError.Some?)
  {
  }

  /** A request that is not a finite number passes the stock guard. */
  lemma NotANumberPassesGuard(item: Item, itemId: string, reason: string, reply: LedgerReply)
    ensures Submit(Some(item), itemId, ItemSchema.NotANumber, reason, reply).call
      == Some(LedgerCall(itemId, ItemSchema.NotANumber, reason))
  {
  }

  /** The store as written has no `recordStockOutput`, so the call is a call
      of `undefined` and always throws: every submit that passes the guards
      ends in the error toast and none navigates. This takes the resolver as
      working; as written the form also resolves against `stockOutputSchema`,
      which the schema file does not define, and that stops the submit
      before `onSubmit` runs, so nothing is recorded either way. */
  lemma AsWrittenOutputNeverRecorded(selected: Option<Item>, itemId: string, quantity: ItemSchema.Coerced, reason: string)
    requires selected.Some? && !ExceedsStock(quantity, selected.value.quantity)
    ensures Submit(selected, itemId, quantity, reason, Threw).toast == Some(OutputFailedMessage)
    ensures Submit(selected, itemId, quantity, reason, Threw).navigateTo == None
  {
  }

  /** The form's state: the item the chosen id resolves to and the error
      shown under the quantity field. */
  class Form {
    var selectedItem: Option<Item>
    var quantityError: Option<string>

    constructor ()
      ensures selectedItem == None && quantityError == None
    {
      selectedItem := None;
      quantityError := None;
    }

    /** The effect that follows the chosen id: no id selects nothing,
        otherwise the first item with that id, or nothing. */
    method SyncSelection(itemId: string, items: seq<Item>)
      modifies this`selectedItem
      ensures itemId == "" ==> selectedItem == None
      ensures itemId != "" ==> selectedItem == InventoryStore.FindItem(items, itemId)
      ensures selectedItem.Some? ==> selectedItem.value.id == itemId && selectedItem.value in items
    {
      if itemId != "" {
        selectedItem := InventoryStore.FindItem(items, itemId);
      } else {
        selectedItem := None;
      }
    }

    /** `onSubmit`, with the ledger's reply given. */
    method OnSubmit(itemId: string, quantity: ItemSchema.Coerced, reason: string, reply: LedgerReply)
      returns (s: Submission)
      modifies this`quantityError
      ensures s == Submit(selectedItem, itemId, quantity, reason, reply)
      ensures quantityError == (if s.quantityError.Some? then s.quantityError else old(quantityError))
    {
      if selectedItem.None? {
        return Submission(None, Some(SelectItemMessage), None, None);
      }
      var stock := selectedItem.value.quantity;
      if ExceedsStock(quantity, stock) {
        quantityError := Some(TooManyMessage(stock));
        return Submission(None, None, quantityError, None);
      }
      var call := Some(LedgerCall(itemId, quantity, reason));
      if reply.Threw? {
        return Submission(call, Some(OutputFailedMessage), None, None);
      }
      s := Submission(call, None, None, None);
      if reply.success {
        s := s.(navigateTo := Some(AfterOutputPath));
      }
    }

    /** `onSubmit` against a store that provides the `recordStockOutput`
        the form expects (`InventoryStore.Store.RecordStockOutput`). A whole
        request between one and the stock of the selected item is taken
        out and the form navigates; whatever the selection, the store never
        goes below zero and stays consistent. */
    method SubmitToStore(store: InventoryStore.Store, itemId: string, quantity: ItemSchema.Coerced, reason: string,
                         movementId: string, now: Timestamp)
      returns (s: Submission, notified: bool)
      modifies this`quantityError, store`items, store`movements
      ensures s.call.None? ==> store.items == old(store.items) && store.movements == old(store.movements)
      ensures s.call.Some? <==> selectedItem.Some? && !ExceedsStock(quantity, selectedItem.value.quantity)
      ensures s.navigateTo.Some? ==> s.navigateTo.value == AfterOutputPath && s.toast.None?
      ensures
        var found := InventoryStore.FindItem(old(store.items), itemId);
        && selectedItem == found && found.Some?
        && quantity.Finite? && ItemSchema.IsInteger(quantity.value)
        && 0.0 < quantity.value <= found.value.quantity as real
        ==> && s.navigateTo == Some(AfterOutputPath)
            && store.items == InventoryStore.ReplaceById(old(store.items), itemId,
                 InventoryStore.Withdrawn(found.value, quantity.value.Floor, now))
      ensures old(InventoryStore.Consistent(store.items, store.movements))
        ==> InventoryStore.Consistent(store.items, store.movements)
    {
      notified := false;
      if selectedItem.None? || ExceedsStock(quantity, selectedItem.value.quantity) {
        s := OnSubmit(itemId, quantity, reason, Returned(false));
        return;
      }
      var reply := Returned(false);
      if quantity.Finite? && ItemSchema.IsInteger(quantity.value) {
        assert quantity.value.Floor as real == quantity.value;
        var r;
        r, notified := store.RecordStockOutput(itemId, quantity.value.Floor, reason, movementId, now);
        reply := Returned(r.Success?);
      }
      s := OnSubmit(itemId, quantity, reason, reply);
    }
  }
}
