# Stock ledger of the inventory application

A Dafny model of the stock ledger of a small Laravel inventory application.
Each product carries a running `stock`. Three handlers change it:

- inventory batches ("entradas") receive stock;
- sale batches ("afectaciones") take stock out;
- the product form sets it directly.

Each `store`, `update` and `destroy` action of the inventory and sale
controllers runs inside one `DB::transaction`. The product actions use no
transaction; each is a single `create`, `update` or `delete` of one row. The
model writes every action as a pure function from the database before the
request to either the committed database or an error, so a failed request
leaves the state as it was (`After`). For the sale loop, which throws after it
has already saved earlier lines, `Ledger.SellPending` models the products table
as the open transaction holds it at the throw, and
`SaleController.StoreRollsBack` and `UpdateRollsBack` prove that those writes
are discarded.

Decimal columns have two places. Quantities, costs and prices are integers
counting hundredths. A line subtotal (quantity times price) is then counted in
ten-thousandths.

Modules, one per source component:

- `Wrappers`: `Option` and `Result`.
- `Models`: products, lines, inventory and sale batches, errors, and the sums
  over a list of lines (`Qty`, `Amount`).
- `Ledger`: how a list of lines moves stock. `Move` is the unchecked
  line-by-line loop. `Sell` is the sale loop that checks each line against the
  running stock. `Exchange` is the sale edit, which returns the old lines and
  then sells the new ones. Also the per-product sum of quantities over stored
  batches.
- `Database`: the state and the schema constraints it keeps: issued ids, the
  foreign keys of the line tables, stored totals and the unique SKU index.
  Also each product's opening balance: its stock, minus all it received, plus
  all it sold.
- `InventoryController`, `SaleController`, `ProductController`: the nine
  handlers, their validation, and their laws (round trips, resubmission,
  preservation of the constraints).
- `Balance`: what the handlers do to stock as a whole.
  - The six batch handlers keep every product's opening balance. Only the
    product form moves it.
  - The sale handlers, the inventory `store` and the product form keep every
    stock at or above zero.
- `Scenarios`: worked examples on one product.

### Behaviour worth noting

- **Stock can go below zero.** The inventory `update` and `destroy` subtract
  the batch's old quantities without any check
  (app/Http/Controllers/InventoryController.php:125 and :171). Undoing a
  receipt after part of it was sold therefore leaves a negative stock
  (`Scenarios.DestroyAfterSaleGoesNegative`). Stock is signed in the model.
- **Resubmitting a sale unchanged can fail.** The sale `update` first returns
  the old lines (app/Http/Controllers/SaleController.php:133-136) and then
  checks each new line against the stock (:159). With a product already below
  zero, the returned quantity does not cover the same line again. The resubmit
  succeeds exactly when no product the sale names has a negative stock
  (`SaleController.ResubmitIff`, `Scenarios.ResubmitRefusedBelowZero`), so it
  always succeeds when every stock is at or above zero
  (`SaleController.ResubmitSucceeds`).
- **The sufficiency check is cumulative.** Each line re-reads its product
  (app/Http/Controllers/SaleController.php:69) after the earlier lines of the
  same batch have saved their subtraction (:83-84), so the comparison at :72
  is against the running stock. For valid (positive) quantities this is
  equivalent to requiring, for each product, stock at least the batch's total
  quantity of it (`Ledger.SellSucceedsIff`). The error names the product of
  the first line that fails this running check (`Ledger.Sell`,
  `Scenarios.FirstShortLineNamed`).

## Model

| member | source | states |
|---|---|---|
| Ledger.Step | app/Http/Controllers/InventoryController.php:73-76 | saving one line moves its own product's stock by plus or minus its quantity and sets the stamp when one is given; every other product row and every other field is unchanged |
| Ledger.Move | app/Http/Controllers/InventoryController.php:65-77 | the unchecked line loop moves each product's stock by its total quantity in the batch and stamps exactly the products the batch names; every other product is untouched |
| Ledger.Sell | app/Http/Controllers/SaleController.php:68-85 | the checked sale loop subtracts the whole batch exactly when no line fails the running check; otherwise it fails naming the product of the first line whose quantity, added to the earlier lines of the same product, exceeds the stock |
| Ledger.ShortAfterStep | app/Http/Controllers/SaleController.php:69-84 | once the first line passes and is saved, each later line fails the running check on the lowered stock exactly when it failed it on the original stock counting the earlier lines |
| Ledger.SellPending | app/Http/Controllers/SaleController.php:68-85 | the loop as the open transaction holds it: when a line is rejected, the table has exactly the lines before it saved and the rejected line is the first failing one; when none is, the table is the fully moved one, and this happens exactly when `Sell` succeeds |
| Ledger.SellSucceedsIff | app/Http/Controllers/SaleController.php:68-85 | the line-by-line check against running stock passes exactly when each named product's stock covers its total quantity in the batch |
| Ledger.SufficientStep | app/Http/Controllers/SaleController.php:72-84 | after one covered line is taken out, the rest is covered exactly when the whole batch was |
| Ledger.SellShortfall | app/Http/Controllers/SaleController.php:72-74 | when the sale loop aborts, the product it names has less stock than the batch's total quantity of it |
| Ledger.Exchange | app/Http/Controllers/SaleController.php:131-171 | a sale edit succeeds exactly when stock plus the old quantities covers the new ones, and then moves each stock by old minus new quantity; on failure it names the product of the first new line that fails the running check after the return |
| Ledger.SufficientReturned | app/Http/Controllers/SaleController.php:133-161 | checking after returning the old lines is checking the original stock plus their quantities, for the whole batch and line by line, so the first failing line is the same |
| Ledger.SufficientAfterOwnReturn | app/Http/Controllers/SaleController.php:133-161 | returning a batch's own lines and checking them again passes exactly when none of its products is below zero |
| Ledger.ShiftedThen | app/Http/Controllers/InventoryController.php:121-157 | reverting the old lines then adding the new ones is one shift by new minus old, with the new products stamped |
| Ledger.ShiftedBack | app/Http/Controllers/SaleController.php:131-171 | returning old lines then taking the new ones is one shift by old minus new |
| Ledger.ShiftedUndone | app/Http/Controllers/InventoryController.php:167-178 | adding a batch then removing it restores every stock; only the stamps of the adding remain |
| Ledger.ShiftedRestored | app/Http/Controllers/SaleController.php:182-193 | taking a batch out then adding it back restores every product exactly |
| Ledger.ShiftedSame | app/Http/Controllers/SaleController.php:131-171 | returning and retaking the same lines leaves every product exactly as it was |
| Ledger.MoveOutIn | app/Http/Controllers/SaleController.php:184-188 | the restoring loop is the inverse of the unchecked taking loop |
| Ledger.MoveInOut | app/Http/Controllers/InventoryController.php:169-173 | without stamps, the reverting loop is the inverse of the adding loop |
| Ledger.RecordedPoint | app/Http/Controllers/InventoryController.php:121-157 | rewriting one batch changes a product's recorded total by the change in that batch's quantity of it |
| Ledger.RecordedUnreferenced | app/Http/Controllers/ProductController.php:116 | a product that no stored line names has nothing recorded |
| Ledger.SumLines | app/Http/Controllers/InventoryController.php:54-57 | the `$total += cantidad * precio` loop returns the sum of quantity times price over the lines |
| Models.QtyOutside | app/Http/Controllers/InventoryController.php:65-77 | a product that no line names has total quantity zero in the batch |
| Models.QtyNonNegative | app/Http/Controllers/SaleController.php:184-188 | without negative quantities a product's total quantity is not negative |
| Database.ItemsValidKnown | app/Http/Controllers/InventoryController.php:44-50 | a validated batch names only existing products and has no negative quantity |
| Database.PutInventory | app/Http/Controllers/InventoryController.php:139-150 | rewriting one inventory with validated lines and its own total keeps every stored line valid and every total matching |
| Database.PutSale | app/Http/Controllers/SaleController.php:149-167 | rewriting one sale with validated lines and its own total keeps every stored line valid and every total matching |
| Database.ShiftedSkusUnique | database/migrations/2025_11_02_113216_create_products_table.php:16 | moving stock changes no SKU, so the unique index keeps holding |
| Database.InventoryWriteValid | app/Http/Controllers/InventoryController.php:121-157 | an inventory transaction that writes a validated batch under an issued id keeps every schema constraint |
| Database.SaleWriteValid | app/Http/Controllers/SaleController.php:131-172 | a sale transaction that writes a validated batch under an issued id keeps every schema constraint |
| Database.OpeningWithoutMovements | app/Http/Controllers/ProductController.php:116 | a product without movements has its stock as opening balance |
| InventoryController.Store | app/Http/Controllers/InventoryController.php:42-78 | a request is accepted exactly when it has at least one line, each naming an existing product with quantity and cost at least 0.01; the new batch gets the next id, the time `now`, the request's purchase date and total Σ qty×cost; each stock rises by its batch quantity, named products are stamped with `now`, and nothing else changes |
| InventoryController.Update | app/Http/Controllers/InventoryController.php:111-157 | an unknown batch is not found; otherwise the same validation; on success the lines are replaced exactly by the request's, the total is recomputed, the purchase date replaced, the recording time and author kept, each stock moves by new minus old quantity, and the new lines' products are stamped with the batch's original time |
| InventoryController.Destroy | app/Http/Controllers/InventoryController.php:165-178 | an unknown batch is not found; otherwise the batch is removed and each stock falls by its quantity in the batch, without any check, and stamps are kept |
| InventoryController.StoreValid | app/Http/Controllers/InventoryController.php:52-78 | storing an inventory keeps ids, line foreign keys, totals and SKU uniqueness |
| InventoryController.UpdateValid | app/Http/Controllers/InventoryController.php:121-157 | editing an inventory keeps every schema constraint |
| InventoryController.DestroyValid | app/Http/Controllers/InventoryController.php:167-178 | deleting an inventory keeps every schema constraint |
| InventoryController.StoreDestroyRoundTrip | app/Http/Controllers/InventoryController.php:165-178 | storing a valid batch then destroying it restores the inventory table and every stock; only the id counter and the new stamps remain |
| InventoryController.ResubmitKeepsStock | app/Http/Controllers/InventoryController.php:121-157 | resubmitting a batch's own lines and date succeeds and leaves the inventory table and every stock unchanged |
| SaleController.Store | app/Http/Controllers/SaleController.php:45-89 | an invalid request is refused; a valid one succeeds exactly when each product's stock covers its total quantity in the batch, otherwise fails naming the product of the first line the running stock does not cover; on success the sale gets the next id, the given cut-off or `now`, total Σ qty×price, each stock falls by its batch quantity and no named product ends below zero |
| SaleController.Update | app/Http/Controllers/SaleController.php:121-175 | an unknown sale is not found, then validation; a valid edit succeeds exactly when stock plus the old quantities covers the new ones, otherwise fails naming the product of the first new line the running stock does not cover; on success the lines are replaced, the total recomputed, the cut-off replaced or kept when omitted, each stock moves by old minus new quantity, and no named product ends below zero |
| SaleController.Destroy | app/Http/Controllers/SaleController.php:180-196 | an unknown sale is not found; otherwise the sale is removed and each stock rises by its quantity in it |
| SaleController.StoreValid | app/Http/Controllers/SaleController.php:55-86 | storing a sale keeps every schema constraint |
| SaleController.UpdateValid | app/Http/Controllers/SaleController.php:131-172 | editing a sale keeps every schema constraint |
| SaleController.DestroyValid | app/Http/Controllers/SaleController.php:182-193 | deleting a sale keeps every schema constraint |
| SaleController.StoreRollsBack | app/Http/Controllers/SaleController.php:55-86 | when the loop rejects a line after saving earlier ones, the request fails naming the rejected product and the database afterwards is the database before, not the partly written one |
| SaleController.UpdateRollsBack | app/Http/Controllers/SaleController.php:131-172 | when the loop rejects a new line after the old lines were returned, the request fails naming the rejected product and neither the return nor the saved lines are kept |
| SaleController.StoreDestroyRoundTrip | app/Http/Controllers/SaleController.php:180-193 | a covered sale stored then destroyed leaves the database exactly as before apart from the used id |
| SaleController.ResubmitIff | app/Http/Controllers/SaleController.php:131-171 | resubmitting a sale's own lines succeeds exactly when none of its products is below zero, and then changes nothing at all |
| SaleController.ResubmitSucceeds | app/Http/Controllers/SaleController.php:131-171 | with every stock at or above zero, resubmitting a sale unchanged succeeds and changes nothing |
| ProductController.Store | app/Http/Controllers/ProductController.php:43-58 | a form is accepted exactly when SKU and name have 1 to 255 characters, the SKU is unused, cost and stock are at least zero, and department, unit and type exist; the new product gets the next id, the submitted fields and no stamp, and nothing else changes |
| ProductController.Update | app/Http/Controllers/ProductController.php:93-108 | an unknown product is not found; a form is accepted exactly under the same rules with the product's own SKU allowed; every field, stock included, is overwritten, the stamp kept, and no batch changes |
| ProductController.Destroy | app/Http/Controllers/ProductController.php:113-123 | an unknown product is not found; a product some inventory or sale line names is refused; otherwise exactly that product is removed and nothing else changes |
| ProductController.OwnSkuAvailable | app/Http/Controllers/ProductController.php:96 | under the unique index a product's own SKU passes the edit rule for that product and fails the creation rule |
| ProductController.WriteSkusUnique | app/Http/Controllers/ProductController.php:46 | writing a product whose SKU passed the rule keeps SKUs unique |
| ProductController.WiderCatalogLinesValid | app/Http/Controllers/ProductController.php:55 | adding or editing products keeps every stored line's foreign key valid |
| ProductController.StoreValid | app/Http/Controllers/ProductController.php:43-58 | creating a product keeps every schema constraint |
| ProductController.UpdateValid | app/Http/Controllers/ProductController.php:93-108 | editing a product keeps every schema constraint |
| ProductController.DestroyValid | app/Http/Controllers/ProductController.php:113-123 | the delete guard keeps the line tables' foreign keys, and so every schema constraint |
| Balance.InventoryRecorded | app/Http/Controllers/InventoryController.php:139-150 | writing or removing one inventory changes a product's received total by that batch's change in quantity |
| Balance.SaleRecorded | app/Http/Controllers/SaleController.php:149-167 | writing or removing one sale changes a product's sold total by that batch's change in quantity |
| Balance.InventoryStoreKeepsOpening | app/Http/Controllers/InventoryController.php:65-77 | storing an inventory leaves every product's opening balance |
| Balance.InventoryUpdateKeepsOpening | app/Http/Controllers/InventoryController.php:121-157 | editing an inventory leaves every product's opening balance |
| Balance.InventoryDestroyKeepsOpening | app/Http/Controllers/InventoryController.php:167-178 | deleting an inventory leaves every product's opening balance |
| Balance.SaleStoreKeepsOpening | app/Http/Controllers/SaleController.php:55-86 | storing a sale leaves every product's opening balance |
| Balance.SaleUpdateKeepsOpening | app/Http/Controllers/SaleController.php:131-172 | editing a sale leaves every product's opening balance |
| Balance.SaleDestroyKeepsOpening | app/Http/Controllers/SaleController.php:182-193 | deleting a sale leaves every product's opening balance |
| Balance.ProductUpdateMovesOpening | app/Http/Controllers/ProductController.php:105 | the product form moves the edited product's opening balance by entered minus previous stock, and no other product's |
| Balance.ProductStoreOpening | app/Http/Controllers/ProductController.php:55 | a new product's opening balance is the stock entered; other products' are unchanged |
| Balance.ProductDestroyKeepsOpening | app/Http/Controllers/ProductController.php:120 | deleting a product leaves every remaining product's opening balance |
| Balance.SaleStoreKeepsNonNegative | app/Http/Controllers/SaleController.php:72-84 | a sale keeps every stock at or above zero |
| Balance.SaleUpdateKeepsNonNegative | app/Http/Controllers/SaleController.php:133-170 | a sale edit keeps every stock at or above zero |
| Balance.SaleDestroyKeepsNonNegative | app/Http/Controllers/SaleController.php:184-188 | deleting a sale keeps every stock at or above zero |
| Balance.InventoryStoreKeepsNonNegative | app/Http/Controllers/InventoryController.php:73-76 | receiving keeps every stock at or above zero |
| Balance.ProductStoreKeepsNonNegative | app/Http/Controllers/ProductController.php:49 | a new product's stock is at least zero, so none goes below |
| Balance.ProductUpdateKeepsNonNegative | app/Http/Controllers/ProductController.php:99 | an edited product's stock is at least zero, so none goes below |
| Scenarios.ScenarioA | app/Http/Controllers/InventoryController.php:52-78 | receiving 5.00 at 28.00 into an empty product gives stock 5.00, total 140.00, and the stamp |
| Scenarios.ScenarioB | app/Http/Controllers/SaleController.php:55-86 | selling 3.00 at 40.00 from 5.00 leaves 2.00 and records 120.00, cut off at `now` |
| Scenarios.ScenarioC | app/Http/Controllers/SaleController.php:72-74 | selling 10.00 from 2.00 is refused naming the product and changes nothing |
| Scenarios.RollbackDiscardsSavedLine | app/Http/Controllers/SaleController.php:55-86 | selling 3.00 twice from 5.00 saves the first line (P at 2.00 in the open transaction), rejects the second naming P, and the database keeps P at 5.00 |
| Scenarios.FirstShortLineNamed | app/Http/Controllers/SaleController.php:68-74 | with two products both short, the error names whichever comes first in the batch |
| Scenarios.ScenarioD | app/Http/Controllers/InventoryController.php:167-178 | undoing the receipt brings stock back to 0.00 and keeps the stamp |
| Scenarios.DestroyAfterSaleGoesNegative | app/Http/Controllers/InventoryController.php:169-173 | undoing the receipt after the sale drives stock to -3.00 from a state with no negative stock |
| Scenarios.ResubmitRefusedBelowZero | app/Http/Controllers/SaleController.php:155-161 | with the product at -3.00, resubmitting the 3.00 sale unchanged is refused |
| Scenarios.ScenarioE | app/Http/Controllers/ProductController.php:116-118 | deleting a product with a receipt line is refused and changes nothing |

## Left out

- The `index`, `create`, `show`, `edit` and `export` actions. They only read
  or render.
- The React pages. Their client-side stock checks only mirror the server.
- The dashboard and the spreadsheet exports. They only aggregate and format
  for reporting.
- The seeders. They only fill the tables with sample rows.
- Concurrency and transaction isolation. Each request is one atomic step.
- Authentication. The user id is a parameter.
- The clock. `now()` is a parameter.
- Date validation. Dates and timestamps are opaque numbers, so `nullable|date`
  is only the choice between absent and present.
- PHP's number parsing of `numeric` fields. Each field is taken as an exact
  count of hundredths.
- Rounding of the computed totals to the two places of their columns.
  `Amount` keeps the exact sum in ten-thousandths.
- The decimal columns' range limit. The database would reject an overflowing
  value; the model has unbounded integers.
- Laravel's trimming of strings and conversion of empty strings to null.
  `required` is modelled as length at least 1.
- The database collation. SKUs are compared by exact equality, where MySQL's
  default collation would compare case-insensitively.
- The sale row and the line rows that the sale loop inserts before it throws.
  `Ledger.SellPending` keeps only the products table of the open
  transaction, which is where the saved stock changes are.
- Auto-increment values consumed by rolled-back inserts. A failed request keeps
  every counter, as SQLite does; MySQL would skip the id.
- The purchase date is kept once per inventory, not on each line. Every write
  of an inventory's lines gives all of them the request's one date, so the
  two are equivalent.
- The migrations of the inventory, sale and line tables are not part of this
  model. Their foreign keys are assumed from the code's use of
  `Product::find` on stored lines: `InventoryKnown` and `SaleKnown`, and
  `LinesValid` in the invariant.
- InventoryController.Update: requires that the batch's stored lines name existing products. The source reads each such product without a null check, so a dangling line would crash the request, which the model does not represent.
- InventoryController.Destroy: requires that the batch's stored lines name existing products. The source reads each such product without a null check, so a dangling line would crash the request, which the model does not represent.
- SaleController.Update: requires that the batch's stored lines name existing products. The source reads each such product without a null check, so a dangling line would crash the request, which the model does not represent.
- SaleController.Destroy: requires that the batch's stored lines name existing products. The source reads each such product without a null check, so a dangling line would crash the request, which the model does not represent.
