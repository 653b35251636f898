# Inventory ledger and its views, in Dafny

This project models the core of a small inventory web application, studio. The core is:

- the ledger hook `useInventory`, which keeps the items and the log of stock movements;
- the dashboard aggregates;
- the item validation schema;
- the inventory list, with search, category filter, sort, category choices, low-stock badge and CSV export;
- the movement history list;
- the guard of the stock-output form;
- the sidebar's active-entry rule.

It proves properties of each. The properties are listed in the table below.

The model has one module per source file, plus four helper modules:

- `Inventory` holds the records of `src/types/inventory.ts`.
- `Text` holds lower-casing, substring search, the string order, integer printing and the UTF-16 length of a string.
- `Seqs` holds filtering, de-duplication and facts about permutations.
- `Sorting` holds an in-place insertion sort on an array, standing for `Array.prototype.sort` with a comparator.

The ledger is the class `InventoryStore.Store`. Its fields `items`, `movements` and `initialized` are replaced by its methods. Fresh ids and timestamps are parameters. The low-stock toast is a returned boolean.

The ledger invariant `InventoryStore.Consistent` says four things:

- ids are unique;
- quantities are non-negative;
- every logged magnitude is positive;
- every item's quantity equals its `entrada` total minus its `salida` total.

Every mutator keeps this invariant.

## Model

| member | source | states |
|---|---|---|
| InventoryStore.FindItem | src/lib/inventory-store.ts:137 | `items.find(item => item.id === id)`: `None` exactly when no item has the id. Otherwise the result is the first item with that id. |
| InventoryStore.PriceOrUndefined | src/lib/inventory-store.ts:118 | `price ? Number(price) : undefined`: an absent price and a zero price both become absent. Any other price is kept. |
| InventoryStore.ThresholdOrUndefined | src/lib/inventory-store.ts:122 | The same truthiness test for the threshold: absent and 0 become undefined. |
| InventoryStore.CreatedItem | src/lib/inventory-store.ts:113-123 | The new item has the given id, name and quantity. `dateAdded` and `lastUpdated` are both `now`. Description and category default to ''. Price and threshold go through the truthiness test. |
| InventoryStore.EditedItem | src/lib/inventory-store.ts:144-153 | The edited item keeps `id` and `dateAdded`. Every other field comes from the form, and `lastUpdated` is `now`. |
| InventoryStore.LowStockNotice | src/lib/inventory-store.ts:75-89 | The notice fires iff all three hold: a threshold is defined, the new quantity is below it, and there is no old quantity or the old one was at or above it. So it fires exactly when the item enters `Below` from `AtOrAbove` or from nothing, and only for a low item. |
| InventoryStore.OneNoticePerLowSpell | src/lib/inventory-store.ts:75-89 | Along any history of quantities, the notices equal the recoveries, plus one if the item is still below. The edge trigger never re-fires while the item stays low. |
| InventoryStore.LogsChangeBalance | src/lib/inventory-store.ts:98-109 | Logging one change moves that item's balance (entradas minus salidas) by exactly the change. Every other item's balance stays the same. |
| InventoryStore.AddItemKeepsConsistent | src/lib/inventory-store.ts:112-130 | Adding an item under a fresh id with a non-negative quantity keeps the invariant, provided its opening movement is logged. For an item created at 0, its quantity equals Σ entrada − Σ salida from then on. |
| InventoryStore.ReplaceKeepsConsistent | src/lib/inventory-store.ts:155-227 | Replacing an item by one with a new non-negative quantity keeps the invariant, provided the difference is logged. |
| InventoryStore.AdjustKeepsConsistent | src/lib/inventory-store.ts:186-237 | Changing one item's quantity to a non-negative value while prepending one movement that records the difference keeps the invariant. |
| InventoryStore.RemoveKeepsConsistent | src/lib/inventory-store.ts:172-174 | Deleting by id keeps the invariant. This includes unique ids, even though the movements of the deleted item stay. |
| InventoryStore.Store.constructor | src/lib/inventory-store.ts:52-54 | Before loading, both collections are empty and the store is not initialised. |
| InventoryStore.Store.Initialize | src/lib/inventory-store.ts:57-61 | Loading adopts the given collections and marks the store initialised. |
| InventoryStore.Store.VisibleItems | src/lib/inventory-store.ts:240 | `items` reads as empty until the store is initialised, and as the stored items after. |
| InventoryStore.Store.VisibleMovements | src/lib/inventory-store.ts:241 | `movements` reads as empty until the store is initialised, and as the stored movements after. |
| InventoryStore.Store.GetItemById | src/lib/inventory-store.ts:176-179 | Before initialisation the result is undefined. After, it is the first item with that id, or undefined when there is none. |
| InventoryStore.Store.GetMovementsByItemId | src/lib/inventory-store.ts:181-184 | Before initialisation the result is empty. After, it holds exactly that item's movements, as a permutation, sorted newest first. |
| InventoryStore.Store.AddMovement | src/lib/inventory-store.ts:91-110 | A change ≤ 0 logs nothing. Otherwise exactly one movement is prepended, so the newest comes first. |
| InventoryStore.Store.AddItem | src/lib/inventory-store.ts:112-130 | Appends `CreatedItem` and logs one `entrada` of the quantity iff the quantity is > 0. Notifies iff the new item is already low. Keeps the invariant. |
| InventoryStore.Store.UpdateItem | src/lib/inventory-store.ts:132-170 | An unknown id changes nothing and returns undefined. Otherwise the item is replaced by `EditedItem`, and the log gets an `entrada` for an increase, a `salida` for a decrease, or nothing. The notice compares with the old quantity. Keeps the invariant. |
| InventoryStore.Store.DeleteItem | src/lib/inventory-store.ts:172-174 | Removes every item with the id and keeps the others in order. Never touches the movements. Keeps the invariant. |
| InventoryStore.Store.IncrementItemQuantity | src/lib/inventory-store.ts:186-207 | An unknown id or an amount ≤ 0 changes nothing. Otherwise the quantity grows by the amount and one `entrada` of that amount is logged. Never notifies. Keeps the invariant. |
| InventoryStore.Store.DecrementItemQuantity | src/lib/inventory-store.ts:209-237 | Removes `min(amount, quantity)`, so the quantity stays ≥ 0. Logs one `salida` equal to the amount actually removed. Does nothing when that amount is 0, the id is unknown or the amount is ≤ 0. Keeps the invariant. |
| InventoryStore.Store.RecordStockOutput | src/components/inventory/stock-output-form.tsx:60-62 | This is the `recordStockOutput` the form expects; the store does not return one. It fails with `NotFound`, `InvalidQuantity` or `InsufficientStock` and then changes nothing. It succeeds iff the item exists and 0 < quantity ≤ stock. It then takes out exactly that quantity, with no clamping, and logs one `salida`. Keeps the invariant. |
| LedgerScenarios.LowStockEdgeTrigger | src/lib/inventory-store.ts:75-237 | Threshold 5, with quantities 10→3→2→6→4: the notices are false, true, false, false, true. |
| LedgerScenarios.DecrementClamps | src/lib/inventory-store.ts:222-233 | Taking 100 out of 4 leaves 0 and logs a `salida` of 4. |
| LedgerScenarios.DeleteKeepsHistory | src/lib/inventory-store.ts:172-174 | After a delete, the item's movement is still logged, and its row shows the item as deleted. |
| Dashboard.TotalQuantity | src/components/dashboard/dashboard-client.tsx:23 | With non-negative quantities the total is non-negative and bounds every item's quantity. `SummaryAddsUp` ties it to the per-category sums. |
| Dashboard.LowStockItemsCount | src/components/dashboard/dashboard-client.tsx:25-27 | At most the number of items. It is zero iff no item has a numeric threshold above its quantity. |
| Dashboard.TotalsAppend | src/components/dashboard/dashboard-client.tsx:23-36 | Total quantity, total value and low-stock count over two runs of items are each the sum over the runs. |
| Dashboard.OneItemTotals | src/components/dashboard/dashboard-client.tsx:23-36 | Over one item the totals are its quantity, its value, and 1 or 0 as it is low or not. With `TotalsAppend`, every total is exactly the sum over its items. |
| Dashboard.ItemValue | src/components/dashboard/dashboard-client.tsx:35 | An item without a price is worth 0. A non-negative price times a non-negative quantity is non-negative. |
| Dashboard.TotalInventoryValue | src/components/dashboard/dashboard-client.tsx:34-36 | A sum of non-negative item values is non-negative. That it is the sum of `ItemValue` over the items is stated by `TotalsAppend` and `OneItemTotals`. |
| Dashboard.MostStockedWitness | src/components/dashboard/dashboard-client.tsx:31 | The strict `>` reduction returns an item of maximal quantity, and the earliest one on ties. |
| Dashboard.MostStockedItem | src/components/dashboard/dashboard-client.tsx:29-32 | The result is null iff there are no items. Otherwise it is the first item of largest quantity. |
| Dashboard.Tabulate | src/components/dashboard/dashboard-client.tsx:40-49 | Corrected (Findings row 3): on a summary without inherited members, the `forEach` builds exactly one key per category that occurs, with no duplicates. An empty category counts as 'Sin Categoría'. Each entry holds that category's item count, units and value. |
| Dashboard.Entries | src/components/dashboard/dashboard-client.tsx:50-52 | One row per key, in key order, carrying that key's totals. |
| Dashboard.SortedRows | src/components/dashboard/dashboard-client.tsx:50-53 | The rows of a tabulation: one per key, with no duplicate names, each holding its category's totals, strictly sorted by name. |
| Dashboard.CategorySummary | src/components/dashboard/dashboard-client.tsx:38-54 | Corrected (Findings row 3). The result is empty without items. It has exactly one row per distinct category name, with no duplicates, sorted by name. Each row holds that category's count, units and value. |
| Dashboard.TabulateAsWritten | src/components/dashboard/dashboard-client.tsx:40-49 | As written, on a plain `{}`: one key per occurring category except those named like `Object.prototype` members, each holding its category's totals. |
| Dashboard.CategorySummaryAsWritten | src/components/dashboard/dashboard-client.tsx:38-54 | As written: the rows of the corrected summary, except that a category named like an inherited member has no row. |
| Dashboard.AsWrittenLosesInheritedCategories | src/components/dashboard/dashboard-client.tsx:42-52 | When every item sits in an inherited category, such as one item filed under "constructor", the as-written rows are empty and count 0 items instead of `items.length`. |
| Dashboard.SummaryAddsUp | src/components/dashboard/dashboard-client.tsx:22-49 | For the corrected summary, the rows' `uniqueItems` add up to `items.length` (`totalItems`). Their `totalQuantity` values add up to `TotalQuantity`, and their `totalValue` values add up to `TotalInventoryValue`. |
| ItemSchema.NameIssues | src/lib/zod-schemas.ts:5 | A name passes iff its `length` in UTF-16 code units is between 1 and 100. A name of more than 100 characters draws only the too-long message. |
| ItemSchema.NameLengthInCodeUnits | src/lib/zod-schemas.ts:5 | 60 characters from outside the Basic Multilingual Plane are too long a name; 100 characters inside it are not. |
| ItemSchema.OptionalTextIssues | src/lib/zod-schemas.ts:6-9 | An absent, empty or short enough description (≤ 500) or category (≤ 50) passes, the length counted in UTF-16 code units. The union reports at most one issue. |
| ItemSchema.WholeCountIssues | src/lib/zod-schemas.ts:7-10 | Passes iff the coerced value is a number, an integer and ≥ 0. Every issue is on that field. |
| ItemSchema.PriceIssues | src/lib/zod-schemas.ts:8 | An absent price passes. A present one passes iff it is a finite number ≥ 0. |
| ItemSchema.ThresholdIssues | src/lib/zod-schemas.ts:10 | An absent threshold passes. A present one passes iff it is an integer ≥ 0. |
| ItemSchema.Parse | src/lib/zod-schemas.ts:4-11 | Succeeds iff every field's constraint holds. The values it returns are valid and carry the input's fields. A failure carries at least one issue. |
| ItemSchema.ParseEntries | src/lib/zod-schemas.ts:4-11 | Valid values come back unchanged through the schema. |
| ItemSchema.NegativeFractionDrawsBothIssues | src/lib/zod-schemas.ts:7 | A negative fractional quantity draws both the integer message and the non-negative message. |
| ItemSchema.ParsedItemKeepsLedgerConsistent | src/lib/zod-schemas.ts:7 | Parsed values are enough for `addItem` to keep the ledger invariant. |
| InventoryList.UniqueCategories | src/components/inventory/inventory-list-client.tsx:46-50 | The result is empty before initialisation. After, it holds every non-empty category exactly once, strictly sorted. |
| InventoryList.SearchIgnoresCase | src/components/inventory/inventory-list-client.tsx:56-62 | Lower-casing the term does not change which items match. |
| InventoryList.ItemCompareAntisymmetric | src/components/inventory/inventory-list-client.tsx:69-95 | The sort callback is antisymmetric for every key and direction, including the Infinity sentinels for missing prices and the `undefined` branches. |
| InventoryList.UnpricedLast | src/components/inventory/inventory-list-client.tsx:73-94 | When sorted by price, in either direction, no item without a price precedes one with a price. |
| InventoryList.NoThresholdLast | src/components/inventory/inventory-list-client.tsx:89-94 | When sorted by threshold, in either direction, no item without a threshold precedes one with a threshold. |
| InventoryList.TwoFilters | src/components/inventory/inventory-list-client.tsx:56-66 | The search and the category filter, each applied only when set, keep, in order, exactly the items passing both. |
| InventoryList.FilteredAndSortedItems | src/components/inventory/inventory-list-client.tsx:52-98 | The result is empty before initialisation. After, an item is listed iff it passes the search (lower-cased name, description or category contains the lower-cased term) and the category filter (exact match unless the sentinel). The result holds every such item as often as the items do (the same multiset as the filtered items), sorted by the key, or in store order when no key is chosen. |
| InventoryList.ClickTwice | src/components/inventory/inventory-list-client.tsx:100-107 | Two clicks on the current header restore the direction. Two clicks on a new header leave it descending. |
| InventoryList.ListView.constructor | src/components/inventory/inventory-list-client.tsx:39-42 | The list starts with no search, all categories, sorted by name ascending. |
| InventoryList.ListView.HandleSort | src/components/inventory/inventory-list-client.tsx:100-107 | The current key flips the direction. A new key is chosen ascending. |
| InventoryList.LowStockBadge | src/components/inventory/inventory-list-client.tsx:291 | The badge shows iff the threshold is a number and the quantity is below it, which is the ledger's `Below` level. |
| InventoryList.AsWrittenDatesSplitRow | src/components/inventory/inventory-list-client.tsx:134-145 | As written, a row whose dates render with a comma reads back as 11 cells under 9 headers. |
| InventoryList.RowCellsAsWritten | src/components/inventory/inventory-list-client.tsx:134-144 | As written: the same nine column texts as the corrected row, with every cell the same except the two dates, which are bare. |
| InventoryList.RowCells | src/components/inventory/inventory-list-client.tsx:134-144 | Corrected: date cells quoted (Findings row 1). The cell texts are the nine column texts, in header order. |
| InventoryList.ExportToCsv | src/components/inventory/inventory-list-client.tsx:121-148 | Corrected: date cells quoted (Findings row 1). An empty list gives no file. Otherwise the file is the header row plus one row per listed item, joined by line feeds. Read back, it yields the headers and each item's column texts. |
| InventoryList.TableReadsBack | src/components/inventory/inventory-list-client.tsx:121-148 | Corrected: date cells quoted (Findings row 1). When no id or formatted price holds a comma, quote or line feed, the exported table reads back as the headers followed by each listed item's column texts. |
| Csv.EscapeQuotes | src/components/inventory/inventory-list-client.tsx:136 | Doubling quotes never shortens a text, and a text without quotes is left as is. |
| Csv.ReadQuotedEscaped | src/components/inventory/inventory-list-client.tsx:136-140 | A quoted cell with doubled quotes reads back as its original text. |
| Csv.ReadRecordEncoded | src/components/inventory/inventory-list-client.tsx:145 | A row of encodable cells joined by commas reads back as its cell texts. |
| Csv.ReadDocumentEncoded | src/components/inventory/inventory-list-client.tsx:131-148 | Rows joined by line feeds read back row by row. |
| Csv.ReadBarePlain | src/components/inventory/inventory-list-client.tsx:134-145 | A bare cell with no comma, quote or line feed reads back as its text, stopping at the separator that follows it. |
| Csv.SplitBareCell | src/components/inventory/inventory-list-client.tsx:141-142 | A bare cell holding a comma is written exactly as two cells. |
| MovementList.TwoFilters | src/components/movements/movement-list-client.tsx:40-50 | The search and the type filter, each applied only when set, keep, in order, exactly the movements passing both. |
| MovementList.TypeFilterSelectsKind | src/components/movements/movement-list-client.tsx:48-50 | A type filter other than the sentinel keeps exactly the movements of that type. |
| MovementList.MovementCompareAntisymmetric | src/components/movements/movement-list-client.tsx:53-69 | The sort callback is antisymmetric for every key and direction. |
| MovementList.NewestFirst | src/components/movements/movement-list-client.tsx:33-59 | In the initial order (date, descending), every movement is at least as recent as all that follow it. |
| MovementList.FilteredAndSortedMovements | src/components/movements/movement-list-client.tsx:36-72 | The result is empty before initialisation. After, a movement is listed iff it passes the search (lower-cased `itemName` or `reason`) and the type filter. The result holds every such movement as often as the history does (the same multiset as the filtered movements), sorted by the key, or in history order when no key is chosen. |
| MovementList.ClickTwice | src/components/movements/movement-list-client.tsx:74-82 | Two clicks on the current header restore the direction. Coming back to the date column gives date descending. |
| MovementList.MovementListView.constructor | src/components/movements/movement-list-client.tsx:31-34 | The history starts with no search, all types, date descending. |
| MovementList.MovementListView.HandleSort | src/components/movements/movement-list-client.tsx:74-82 | The current key flips the direction. A new key starts ascending, except the date, which starts descending. |
| MovementList.DoesItemExist | src/components/movements/movement-list-client.tsx:91-93 | True iff some current item has the id. |
| MovementList.ExistsIffFound | src/components/movements/movement-list-client.tsx:91-93 | Agrees with the store's lookup. After `deleteItem`, the item's movements show it as deleted. |
| StockOutputForm.Form.SyncSelection | src/components/inventory/stock-output-form.tsx:35-43 | No id selects nothing. Otherwise the selection is the first item with that id, or nothing. |
| StockOutputForm.Form.OnSubmit | src/components/inventory/stock-output-form.tsx:45-69 | The submission follows the guard sequence. The quantity field error is set only on over-withdrawal. |
| StockOutputForm.GuardBeforeLedger | src/components/inventory/stock-output-form.tsx:46-60 | The ledger is called iff an item is selected and the request does not exceed its stock. The call carries (`itemId`, `Number(quantity)`, `reason`). Over-withdrawal sets only the field error and never clamps. |
| StockOutputForm.NavigateOnlyOnSuccess | src/components/inventory/stock-output-form.tsx:59-68 | Navigation to /inventario happens iff the call returned a truthy value. A thrown error becomes the error toast. |
| StockOutputForm.NotANumberPassesGuard | src/components/inventory/stock-output-form.tsx:50-51 | A `NaN` request is never "more than the stock" and reaches the ledger call. |
| StockOutputForm.AsWrittenOutputNeverRecorded | src/components/inventory/stock-output-form.tsx:59-68 | With a working resolver, the call as written throws, so every submit that passes the guards ends in the error toast and none navigates. |
| StockOutputForm.Form.SubmitToStore | src/components/inventory/stock-output-form.tsx:45-69 | Run against the expected `recordStockOutput`, a whole request from 1 to the selected item's stock is taken out exactly, and the form navigates. With no call, the store is unchanged. The ledger invariant holds whatever the selection. |
| SidebarNav.NavItems | src/components/layout/sidebar-nav.tsx:10-14 | Exactly three entries, in the order dashboard, inventario, nuevo. |
| SidebarNav.ActiveFlags | src/components/layout/sidebar-nav.tsx:21-30 | One flag per entry, each given by the entry's rule. |
| SidebarNav.EntryRules | src/components/layout/sidebar-nav.tsx:24-29 | Dashboard is active iff the path is '/dashboard'. Inventario is active iff the path is '/inventario' or starts with '/inventario/editar/'. Añadir Artículo is active iff the path is '/inventario/nuevo'. |
| SidebarNav.AtMostOneActive | src/components/layout/sidebar-nav.tsx:24-30 | For every path, at most one entry is active. |
| SidebarNav.OwnPathHighlightsOnlyItself | src/components/layout/sidebar-nav.tsx:21-30 | Each entry's own path highlights that entry and no other. |
| Text.Utf16Length | src/lib/zod-schemas.ts:4-9 | The `length` zod measures: between the number of characters and twice that, and 0 only for the empty string. |
| Text.Utf16LengthAppend | src/lib/zod-schemas.ts:4-9 | The length of a concatenation is the sum of the lengths. |
| Text.StrCompareAntisymmetric | src/components/inventory/inventory-list-client.tsx:49 | The string order used for `localeCompare` is antisymmetric. |
| Text.StrCompareTransitive | src/components/dashboard/dashboard-client.tsx:53 | The string order used for `localeCompare` is transitive. |

## Left out

- localStorage persistence and JSON (de)serialisation (src/lib/inventory-store.ts:11-49,63-73) are browser I/O. `Store.Initialize` takes the loaded collections as given.
- `crypto.randomUUID()` and `new Date().toISOString()` are not modelled. Ids and timestamps are parameters, and timestamps are integers: ISO strings of one format order like their instants.
- React's updater-closure timing is not modelled. Each operation runs to completion, one after another.
- Toasts, the router and skeleton rendering are presentation. The low-stock toast is a returned boolean. The form's toast, field error and navigation are the fields of `Submission`.
- Floating point: prices and values are exact reals. `toFixed(2)` and `toLocaleString('es-ES')` are function parameters of the export.
- The Infinity sentinels of the price sort are not numbers here. Their effect is written out as the order they induce.
- `localeCompare` is modelled as lexicographic order on code points. `toLowerCase` is modelled as lower-casing of ASCII and Latin-1 letters only.
- `Number(...)` coercion of form strings happens before the model's inputs: `ItemSchema.Coerced` is its result, a finite number or NaN.
- ItemSchema.PriceIssues: `ItemSchema.Coerced` has no ±Infinity, which `Number("1e999")` yields. `z.coerce.number().min(0)` accepts +Infinity as a price, so `PriceIssues` and `Parse` do not cover an infinite price. Prices are exact reals throughout the model, so an infinite price, and what it does to the dashboard's value, is not modelled. For quantity and threshold an infinity fails `.int()`, and the model never receives one.
- ItemSchema.Parse: zod's exact issue codes and messages for non-string inputs are not modelled. Only the messages the schema declares, plus the NaN message, are.
- The AI flows (src/ai/flows/*.ts) are calls to an external language model.
- src/components/inventory/item-form.tsx, stock-input-form.tsx and the other presentation files are not part of this model. This covers item-movements-list, item-loader, delete-item-dialog, app-layout, use-mobile and the pages.
- `stockInputSchema` and `stockOutputSchema` are imported but never defined (src/lib/zod-schemas.ts defines only `inventoryItemSchema`), so the forms' own validation is not modelled.
- StockOutputForm.AsWrittenOutputNeverRecorded: takes `zodResolver` as working. As written it receives the undefined `stockOutputSchema` and fails before `onSubmit` runs, so the submit stops there and the error toast of the catch is not reached.
- `recordStockInput` is missing from the store just as `recordStockOutput` is. Only the output form is part of this model.
- Dashboard.TotalQuantity: its own contract gives only bounds. That it is the sum of the quantities is stated by `TotalsAppend` and `OneItemTotals`, and tied to the category rows by `SummaryAddsUp`.
- Dashboard.TotalInventoryValue: its own contract gives only non-negativity. That it is the sum of the item values is stated by `TotalsAppend` and `OneItemTotals`.
- Dashboard.LowStockItemsCount: its own contract gives only bounds and the zero case. The exact count is stated by `TotalsAppend` and `OneItemTotals`.
- Dashboard.TabulateAsWritten: the `+=` lines for an inherited category write `NaN` onto `Object`, a prototype method or `Object.prototype` itself. That side effect on global objects is not modelled; only the missing row is.
- InventoryList.FilteredAndSortedItems and MovementList.FilteredAndSortedMovements: stability is not stated. `Array.prototype.sort` keeps tied elements in their filtered order, and the insertion sort standing for it does too, but no contract says so.
- Where the documented behaviour and the code disagree, the model follows the code. The documentation gives `updateItem`, `incrementItemQuantity` and `decrementItemQuantity` a `NotFound` failure, but the code silently leaves the state unchanged. The documentation also describes `recordStockInput`/`recordStockOutput` as ledger operations, but the code does not provide them.

## Findings

| source | as written | input that shows it | evidently intended | confidence | as-written member | corrected member |
|---|---|---|---|---|---|---|
| src/components/inventory/inventory-list-client.tsx:141-142 | The date cells are `toLocaleString('es-ES')`, written without quotes. | Any listed item: es-ES renders a date as "19/10/2026, 14:03:05". The row then reads back as 11 cells under 9 headers, and the threshold column lands in the 11th cell. | The date cells are quoted like the text cells, so each row reads back as its nine column texts. | medium, not executed | InventoryList.AsWrittenDatesSplitRow | InventoryList.ExportToCsv |
| src/components/inventory/stock-output-form.tsx:60-68 | The form calls `recordStockOutput`, which the store's returned object (src/lib/inventory-store.ts:239-250) does not contain. | Select an item with 5 units and request 2. As written the submit already stops in `zodResolver`, which receives the undefined `stockOutputSchema`, so nothing is recorded. With that schema defined, the call of `undefined` throws a TypeError, the catch shows "No se pudo registrar la salida." and again nothing is recorded. | The store provides `recordStockOutput`, which takes out exactly the requested stock or rejects the request. | high, not executed | StockOutputForm.AsWrittenOutputNeverRecorded | StockOutputForm.Form.SubmitToStore |
| src/components/dashboard/dashboard-client.tsx:42-52 | The summary is a plain `{}`, so `summary[category]` also finds members inherited from `Object.prototype`. | One item with category "constructor". `summary["constructor"]` is the inherited `Object` function, which is truthy, so no own entry is opened. `Object.entries` then returns nothing, and the summary is empty although there is one item. | Every category gets its own row, as with a `Map` or `Object.create(null)`, so the rows account for every item. | medium, not executed | Dashboard.AsWrittenLosesInheritedCategories | Dashboard.CategorySummary |
