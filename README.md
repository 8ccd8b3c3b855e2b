# Sales, stock and bookkeeping core of empreende-facil-api, in Dafny

This project models the back end of a small-business bookkeeping API: the
products, sales, expenses, categories and customers of each user. Its centre
is the sales service, which keeps product stock in step with sales:

- **Create** takes each line's quantity off its product.
- **Update** credits back what the sale already held. It builds a signed
  per-product delta map and applies it.
- **Delete** gives every item's quantity back.

Around it sit the repositories the service calls, the monthly-total and
best-selling-products reports, and the other repositories and services,
which all follow one pattern:

- an owner-scoped table;
- a create that trims strings and turns empty values into null;
- an update that assigns only the supplied fields;
- a not-found error on update and delete;
- business guards in the service.

Every table is a `map<Id, Row>` field of a repository class, and a row is
visible to a user exactly when its owner id matches. The services are
classes holding their repositories. Their guards are pure functions returning
`Pass` or `Fail(error)`, and each method states both halves:

- a failing request returns the error and changes nothing;
- an accepted request produces exactly the new tables.

Money and quantities are exact `real`s. The 0.01 tolerance of the sale total
is stated on them. Generated ids and "now" are parameters.

Files, one module each:

| file | module | models |
|---|---|---|
| common.dfy | Common | ids, nullable values, update-request fields, the exceptions, `x \|\| null` |
| text.dfy | Text | `trim`, `toLowerCase`, `\s`, `Like('%q%')` |
| calendar.dfy | Calendar | the month window `[new Date(y, m-1, 1), new Date(y, m, 0, 23, 59, 59)]` |
| sums.dfy | Sums | order-independent sums over table rows, the `reduce` loop |
| sales.dfy | Sales | sale and item records, per-product sums over item lists, `find` |
| product_store.dfy | ProductStore | the products repository |
| product_service.dfy | ProductService | the products service |
| top_products.dfy | TopProducts | the grouping, sort and slice of the best-selling products report |
| sale_store.dfy | SaleStore | the sales repository |
| sale_service.dfy | SaleService | the sales service and its stock reconciliation |
| expense_store.dfy, expense_service.dfy | ExpenseStore, ExpenseService | the expenses repository and service |
| category_store.dfy, category_service.dfy | CategoryStore, CategoryService | the categories repository and service |
| customer_store.dfy, customer_service.dfy | CustomerStore, CustomerService | the customers repository and service |

### The stock reconciliation

`SaleService.ShiftStock(rows, user, released, consumed)` is the product table
after a sale gives back the items `released` and takes the lines `consumed`.
Each of the user's products changes by what was released minus what was
consumed of it. Everything else is unchanged. The three loops of the service
are proved to compute exactly this, as follows.

| service method | loop method | `released` | `consumed` |
|---|---|---|---|
| `CreateSale` | `ConsumeStock` | nothing | the new lines |
| `UpdateSale` | `BuildStockChanges`, then `ApplyStockChanges` over the delta map, in any order | the old items | the new lines |
| `DeleteSale` | `ReleaseStock` | the old items | nothing |

The lemmas then show the following:

- `CreateThenDeleteRestores`: create followed by delete restores every stock.
- `UpdateIsReleaseThenConsume`: an update is a delete followed by a create.
- `EqualTotalsLeaveStock`: lists with equal per-product totals leave the stock alone.
- `CreatedSaleBalanced`: a stored sale's subtotals add up to its total within 0.01.
- `UpdatedSaleBalanced`: the same for an updated sale, unless its declared total was 0.

### Behaviour of the code as written

The model follows the code. Its consequences below are proved as lemmas.

- **`DuplicateLinesOverdraw`.** Create checks every line against the
  unmodified stock. Two lines of one product are therefore not added up, and
  stock can go negative.
- **`NoOverdrawWithDistinctLines`.** With one line per product, create
  never takes a non-negative stock below zero.
- **`FirstLineCreditOnly`.** Update credits only the first old item of a
  product (`find`), not all the sale holds of it.
- **`EmptyListDropsItems`.** An update with an empty item list passes no
  check and moves no stock. The repository still replaces the items with the
  empty list, so a later delete gives back less.
- **`ZeroTotalSkipsCheck`.** A declared total of 0 is falsy, skips the
  tolerance check and is stored as given.
- **`ClearingPeriodAccepted`.** Clearing the recurrence period of a
  recurring expense is accepted. The period check reads only the request.
- **`StoredStockNotRechecked`.** A stored negative stock is not re-checked
  by a product update that leaves the stock alone.
- **`CaseVariantNotFound`.** The duplicate category check compares names
  ignoring case, but the search before it is a case-sensitive substring
  match. "food" is therefore not reported as a duplicate of "Food".
- **`EmptyEmailKeptByUpdate`.** Update stores an empty email as "", while
  create would store null.
- **`LastSecondInNoWindow`.** The monthly window ends at 23:59:59.000, so
  the last 999 ms of each month fall in no month.

## Model

| member | source | states |
|---|---|---|
| Common.OrNull | src/products/repositories/products.repository.ts:38-39 | `s \|\| null` is null exactly for an absent, null or empty string, and otherwise keeps the string |
| Text.TrimStartFacts | src/products/repositories/products.repository.ts:37 | the left half of `trim` keeps a suffix, drops only whitespace, and what it keeps does not start with whitespace |
| Text.TrimEndFacts | src/products/repositories/products.repository.ts:37 | the right half of `trim` keeps a prefix, drops only whitespace, and what it keeps does not end with whitespace |
| Text.TrimEmptyIffBlank | src/customers/customers.service.ts:20 | `name.trim().length === 0` holds exactly when every character of the name is whitespace (both directions) |
| Text.TrimIdempotent | src/products/repositories/products.repository.ts:37 | trimming a trimmed string changes nothing |
| Text.TrimmedApplyIdempotent | src/products/repositories/products.repository.ts:64 | re-applying `if (name !== undefined) row.name = name.trim()` changes nothing |
| Text.ContainsSelf | src/categories/repositories/categories.repository.ts:69 | every string matches `Like('%s%')` for itself |
| Text.ToLowerIdempotent | src/categories/categories.service.ts:22 | lower-casing a lower-cased string changes nothing |
| Calendar.DaysInMonth | src/sales/repositories/sales.repository.ts:129 | a month has 28 to 31 days, and February has 29 exactly in leap years |
| Calendar.YearLength | src/sales/repositories/sales.repository.ts:128-129 | the twelve month lengths add up to the year's length, 366 in a leap year and 365 otherwise |
| Calendar.MonthLength | src/sales/repositories/sales.repository.ts:128-129 | consecutive month starts are one month length apart, across year boundaries too |
| Calendar.MonthWindowLength | src/sales/repositories/sales.repository.ts:128-129 | the window of a month spans its days minus the final second |
| Calendar.February2024Window | src/sales/repositories/sales.repository.ts:128-129 | the February 2024 window ends at 23:59:59 on the 29th |
| Calendar.LastSecondInNoWindow | src/sales/repositories/sales.repository.ts:128-134 | one window ends 1000 ms before the next starts, so an instant between them lies in neither |
| Sums.SumMapRemove | src/sales/repositories/sales.repository.ts:138 | the sum of the rows is any one row's value plus the sum of the others, so it does not depend on the order they are visited in |
| Sums.SumMapInsert | src/sales/repositories/sales.repository.ts:138 | adding a row adds its value to the sum |
| Sums.SumMapZero | src/sales/repositories/sales.repository.ts:138 | rows that are all zero sum to zero |
| Sums.SumValues | src/sales/repositories/sales.repository.ts:138 | the `reduce` loop returns the sum of the rows, whatever order it visits them in |
| Sums.DistinctCardinality | src/expenses/repositories/expenses.repository.ts:87 | a list without repetitions has as many distinct elements as entries |
| Sums.RepeatedCardinality | src/expenses/repositories/expenses.repository.ts:87 | a list with a repetition has fewer distinct elements than entries |
| Sums.SetOfSeqBound | src/expenses/repositories/expenses.repository.ts:87 | a list has at most as many distinct elements as entries |
| Sales.ToItem | src/sales/repositories/sales.repository.ts:58-64 | a stored item keeps the line's product, quantity and price, and its subtotal is quantity × unit price |
| Sales.ToItems | src/sales/repositories/sales.repository.ts:57-65 | one stored item per request line, in order |
| Sales.ToItemsWellPriced | src/sales/repositories/sales.repository.ts:63 | every stored item's subtotal is quantity × unit price |
| Sales.FirstHeld | src/sales/sales.service.ts:95-98 | the credit is the quantity of the first old item of the product, or 0 when none has it |
| Sales.HeldToItems | src/sales/repositories/sales.repository.ts:57-65 | the stored items hold of every product exactly what the request asked for |
| Sales.SubtotalSumToItems | src/sales/repositories/sales.repository.ts:57-65 | the stored subtotals add up to the request's computed total |
| Sales.HeldAbsent | src/sales/repositories/sales.repository.ts:150-162 | an item list holds no quantity and no revenue of a product it does not mention |
| Sales.FirstHeldIsHeld | src/sales/sales.service.ts:95-98 | with at most one item per product, `find` credits all the sale holds of it |
| Sales.FirstHeldNonNegative | src/sales/sales.service.ts:95-98 | with no negative quantities the credit is not negative |
| ProductStore.PatchedIdempotent | src/products/repositories/products.repository.ts:64-71 | sending the same update twice stores the same row as sending it once |
| ProductStore.StockPatchOnlyStock | src/sales/sales.service.ts:70-72 | the `{ stockQuantity }` update the sales service sends changes the stock and nothing else |
| ProductStore.ProductsRepository.FindById | src/products/repositories/products.repository.ts:20-24 | a product is returned exactly when both id and owner match |
| ProductStore.ProductsRepository.Create | src/products/repositories/products.repository.ts:35-44 | inserts one row under the new id: name trimmed, description and category null exactly when absent or empty, other rows unchanged |
| ProductStore.ProductsRepository.Update | src/products/repositories/products.repository.ts:59-71 | not found for the user: error, table unchanged; otherwise exactly the supplied fields assigned (name trimmed), all else unchanged |
| ProductStore.ProductsRepository.Delete | src/products/repositories/products.repository.ts:74-79 | succeeds exactly when the user owns the row, and removes only that row; otherwise an error and nothing removed |
| ProductStore.ProductsRepository.FindByCategory | src/products/repositories/products.repository.ts:81-86 | exactly the user's products whose category equals the given one |
| ProductStore.ProductsRepository.FindLowStock | src/products/repositories/products.repository.ts:88-92 | exactly the user's products whose stock is zero or below |
| ProductService.CreateCheck | src/products/products.service.ts:20-30 | passes exactly when sale price ≥ cost price (equality allowed) and stock ≥ 0, with the error of the first failing guard |
| ProductService.UpdateCheck | src/products/products.service.ts:50-63 | passes exactly when the effective prices (supplied, else stored) keep sale ≥ cost and a supplied stock is not negative; the price guard comes first (SalePriceBelowCost), then NegativeStock |
| ProductService.CreatedIsSane | src/products/products.service.ts:20-40 | a product created through the service has sale ≥ cost and stock ≥ 0 |
| ProductService.UpdatePreservesSane | src/products/products.service.ts:50-65 | an accepted update keeps sale ≥ cost and stock ≥ 0 |
| ProductService.SalePriceComparedWithStoredCost | src/products/products.service.ts:50-57 | lowering only the sale price below the stored cost price is refused |
| ProductService.StoredStockNotRechecked | src/products/products.service.ts:59-63 | a stored negative stock is not re-checked when the update leaves the stock alone |
| ProductService.ProductsService.CreateProduct | src/products/products.service.ts:18-41 | a failed guard returns its error and writes nothing; otherwise exactly the repository's create |
| ProductService.ProductsService.UpdateProduct | src/products/products.service.ts:43-66 | missing product, then the guards, each returning its error and writing nothing; otherwise the request forwarded unchanged to the repository update |
| TopProducts.NameOf | src/sales/repositories/sales.repository.ts:154 | the product's name when it has a non-empty one, otherwise 'Produto desconhecido' |
| TopProducts.Mine | src/sales/repositories/sales.repository.ts:16-22 | exactly the user's sales |
| TopProducts.AddSale | src/sales/repositories/sales.repository.ts:150-163 | one more sale adds its products to those sold and its quantities and subtotals to each product's totals |
| TopProducts.Insert | src/sales/repositories/sales.repository.ts:172 | inserting into a sorted list keeps it sorted and adds exactly the one entry |
| TopProducts.SortByRevenue | src/sales/repositories/sales.repository.ts:172 | the sort returns a permutation of its input, ordered by revenue, highest first |
| TopProducts.SliceEnd | src/sales/repositories/sales.repository.ts:173 | `slice(0, limit)` keeps min(limit, n) entries, and n + limit (at least 0) for a negative limit |
| TopProducts.SortKeepsIdsDistinct | src/sales/repositories/sales.repository.ts:165-172 | sorting does not make a product occur twice |
| TopProducts.CutIsTop | src/sales/repositories/sales.repository.ts:172-173 | an entry cut off a sorted list has at most the revenue of every entry kept |
| TopProducts.Entries | src/sales/repositories/sales.repository.ts:165-171 | one entry per grouped product, carrying its name and running totals |
| TopProducts.TallyItem | src/sales/repositories/sales.repository.ts:152-161 | the inner loop body adds the item's quantity and subtotal to its product's group, adds the product to the groups, and keeps one group per product named after it |
| TopProducts.TallyItems | src/sales/repositories/sales.repository.ts:151-162 | the inner loop adds every item of a sale to its product's totals |
| TopProducts.TalliedStep | src/sales/repositories/sales.repository.ts:151-162 | tallying a prefix and then the next item tallies the longer prefix |
| TopProducts.NothingSold | src/sales/repositories/sales.repository.ts:148 | the empty map summarises no sales |
| TopProducts.SummarisesStep | src/sales/repositories/sales.repository.ts:150-163 | tallying one more sale's items summarises the larger set of sales |
| TopProducts.TallySales | src/sales/repositories/sales.repository.ts:147-163 | after both loops every product sold has one group holding its total quantity and revenue, whatever the order of the sales |
| TopProducts.RankedLength | src/sales/repositories/sales.repository.ts:165-173 | the report has min(limit, number of distinct products sold) entries |
| TopProducts.EntriesAccurate | src/sales/repositories/sales.repository.ts:165-171 | every entry carries its product's name and summed quantity and revenue |
| TopProducts.RankedSorted | src/sales/repositories/sales.repository.ts:172-173 | the report is ordered by revenue, highest first, and lists no product twice |
| TopProducts.PrefixSorted | src/sales/repositories/sales.repository.ts:173 | the slice of a sorted list without repeated products is one too |
| TopProducts.RankedAccurate | src/sales/repositories/sales.repository.ts:165-173 | every entry of the report is accurate |
| TopProducts.RankedTop | src/sales/repositories/sales.repository.ts:172-173 | no product left out of the report sold more than any product in it |
| TopProducts.OmittedBelow | src/sales/repositories/sales.repository.ts:172-173 | the same for one product left out |
| SaleStore.NewSaleRow | src/sales/repositories/sales.repository.ts:46-65 | create's row: customer, payment method and notes null exactly when absent or empty, date defaulting to now, and items holding exactly the requested quantities with subtotals adding up to the computed total |
| SaleStore.PatchedSaleFacts | src/sales/repositories/sales.repository.ts:93-115 | update keeps id and owner, keeps the items when none are supplied and otherwise holds exactly the new quantities, keeps subtotals = quantity × price, and changes nothing when nothing is supplied |
| SaleStore.MonthlyTotalAfterInsert | src/sales/repositories/sales.repository.ts:127-138 | a new sale adds its amount to its owner's total for the month its date falls in, and to no other total |
| SaleStore.MonthlyTotalAfterRemove | src/sales/repositories/sales.repository.ts:127-138 | deleting a sale takes its amount off the total it counted in |
| SaleStore.LeapDayCounts | src/sales/repositories/sales.repository.ts:128-134 | a sale at 2024-02-29 23:59:59 counts in February 2024, and one a day later does not |
| SaleStore.SalesRepository.FindById | src/sales/repositories/sales.repository.ts:24-29 | a sale is returned exactly when both id and owner match |
| SaleStore.SalesRepository.Create | src/sales/repositories/sales.repository.ts:46-69 | inserts exactly create's row under the new id and keeps every stored subtotal equal to quantity × price |
| SaleStore.SalesRepository.Update | src/sales/repositories/sales.repository.ts:88-117 | not found for the user: error, table unchanged; otherwise the supplied scalar fields assigned and, when items are supplied, exactly the new items in place of the old |
| SaleStore.SalesRepository.Delete | src/sales/repositories/sales.repository.ts:120-125 | succeeds exactly when the user owns the sale, and removes only it |
| SaleStore.SalesRepository.GetMonthlyTotal | src/sales/repositories/sales.repository.ts:127-138 | the sum of the amounts of the user's sales dated inside the month's window |
| SaleStore.SalesRepository.GetTopProducts | src/sales/repositories/sales.repository.ts:141-174 | sorted by revenue and at most `limit` long; one accurate entry per listed product; no product twice; nothing left out outsold what is listed |
| SaleService.CheckItems | src/sales/sales.service.ts:33-46 | the line checks pass exactly when every line's product is the user's and stock plus credit covers the quantity (equal stock passes); a failure is ProductNotFound or InsufficientStock |
| SaleService.FirstFailure | src/sales/sales.service.ts:33-43 | the error reported is that of the first failing line |
| SaleService.CreateCheck | src/sales/sales.service.ts:27-53 | create's checks pass exactly when there is a line, all lines pass and the declared total is within 0.01 of the computed one; the error is EmptyItems for no lines, else the first failing line's error (before the total is compared), else TotalMismatch(declared, computed) |
| SaleService.UpdateCheck | src/sales/sales.service.ts:86-113 | only a non-empty new list is checked, each line against stock plus the first old line's credit, and a non-zero declared total against the 0.01 tolerance; the error is the first failing line's, else TotalMismatch(declared, computed) |
| SaleService.Forwarded | src/sales/sales.service.ts:115-117 | with a new list and no declared total the computed total is filled in; otherwise the request is forwarded as sent |
| SaleService.ShiftStockAt | src/sales/sales.service.ts:66-74 | after a shift, each of the user's products has its stock plus what was released minus what was consumed of it, and nothing else changes |
| SaleService.ShiftedIsShiftStock | src/sales/sales.service.ts:121-147 | applying a delta map whose entries are old minus new quantities is the shift from the old items to the new lines |
| SaleService.ConsumeStep | src/sales/sales.service.ts:66-74 | consuming one more line changes only its product, by its quantity |
| SaleService.ReleaseStep | src/sales/sales.service.ts:165-173 | releasing one more item changes only its product, by its quantity |
| SaleService.ApplyStep | src/sales/sales.service.ts:139-147 | applying one more delta entry changes only its product, by that entry |
| SaleService.CreateThenDeleteRestores | src/sales/sales.service.ts:66-74 | deleting a created sale gives back exactly what creating it took: every stock returns to its value |
| SaleService.UpdateIsReleaseThenConsume | src/sales/sales.service.ts:121-147 | an update's effect on stock is giving back the old items and then taking the new lines |
| SaleService.EqualTotalsLeaveStock | src/sales/sales.service.ts:121-147 | old and new lists with equal per-product totals leave every stock as it was |
| SaleService.ResubmittedItemsLeaveStock | src/sales/sales.service.ts:121-147 | re-sending a sale's own lines changes no stock |
| SaleService.CreatedSaleBalanced | src/sales/sales.service.ts:49-63 | a created sale's stored subtotals add up to its total within 0.01 |
| SaleService.UpdatedSaleBalanced | src/sales/sales.service.ts:109-117 | an updated sale with new items has subtotals adding up to its total within 0.01, unless the declared total was 0 |
| SaleService.NoOverdrawWithDistinctLines | src/sales/sales.service.ts:39-43 | with one line per product, create leaves no accepted non-negative stock below zero |
| SaleService.RequestedSingle | src/sales/sales.service.ts:66-74 | with one line per product, what is taken of a product is its line's quantity |
| SaleService.RequestedAbsent | src/sales/sales.service.ts:66-74 | nothing is taken of a product no line names |
| SaleService.ReplaceLineExample | src/sales/sales.service.ts:95-104 | with 7 in stock and 3 held, a new line of 5 is checked against 10 and leaves 5 |
| SaleService.InsufficientStockExample | src/sales/sales.service.ts:39-43 | 3 of a product with 2 in stock fails with InsufficientStock(2, 3) |
| SaleService.TotalToleranceExample | src/sales/sales.service.ts:49-53 | a computed 20 refuses a declared 25 and accepts a declared 20.005 |
| SaleService.DuplicateLinesOverdraw | src/sales/sales.service.ts:39-43 | two lines of 3 pass against a stock of 5 and leave -1 |
| SaleService.FirstLineCreditOnly | src/sales/sales.service.ts:95-98 | a sale holding 2 + 2 of a product with no stock left cannot be changed to 3 of it |
| SaleService.EmptyListDropsItems | src/sales/sales.service.ts:86 | an empty new list is not checked, moves no stock and still empties the sale's items |
| SaleService.ZeroTotalSkipsCheck | src/sales/sales.service.ts:109 | a declared total of 0 skips the check and is stored although the subtotals add up to 20 |
| SaleService.SalesService.GetSaleById | src/sales/sales.service.ts:18-24 | the user's sale, or SaleNotFound exactly when the user owns no such sale |
| SaleService.SalesService.CheckLines | src/sales/sales.service.ts:32-46 | the validation loop returns the outcome of the line checks and, when they pass, the computed total |
| SaleService.SalesService.ConsumeStock | src/sales/sales.service.ts:66-74 | the create loop leaves the product table shifted by the new lines, duplicate lines both counting |
| SaleService.SalesService.ReleaseStock | src/sales/sales.service.ts:165-173 | the delete loop leaves the product table shifted back by the sale's items |
| SaleService.SalesService.BuildStockChanges | src/sales/sales.service.ts:121-135 | each entry of the delta map is the old quantity minus the new quantity of its product |
| SaleService.SalesService.ApplyStockChanges | src/sales/sales.service.ts:139-147 | each of the user's products changes by its delta entry, whatever order the entries are applied in |
| SaleService.SalesService.CreateSale | src/sales/sales.service.ts:26-77 | a failed check returns its error and changes neither table; otherwise the sale is stored and the stock shifted by its lines |
| SaleService.SalesService.UpdateSale | src/sales/sales.service.ts:79-156 | SaleNotFound or a failed check changes nothing; otherwise the sale is updated with the forwarded request and, for a non-empty list only, the stock shifted from the old items to the new lines |
| SaleService.SalesService.DeleteSale | src/sales/sales.service.ts:158-176 | SaleNotFound changes nothing; otherwise every item goes back to its product and only that sale is removed |
| ExpenseStore.NewExpenseRow | src/expenses/repositories/expenses.repository.ts:35-44 | create's row: description and category trimmed, date defaulting to now, recurring only when true was sent, period null exactly when absent or empty |
| ExpenseStore.PatchedExpenseIdempotent | src/expenses/repositories/expenses.repository.ts:63-71 | sending the same update twice stores the same row as sending it once |
| ExpenseStore.CountCheck | src/expenses/repositories/expenses.repository.ts:83-88 | the count check passes exactly when the ids are pairwise distinct and all name rows of the user |
| ExpenseStore.MonthlyTotalAfterInsert | src/expenses/repositories/expenses.repository.ts:111-123 | a new expense adds its amount to its owner's total for its month only |
| ExpenseStore.ExpensesRepository.FindById | src/expenses/repositories/expenses.repository.ts:20-24 | an expense is returned exactly when both id and owner match |
| ExpenseStore.ExpensesRepository.Create | src/expenses/repositories/expenses.repository.ts:26-45 | inserts exactly create's row under the new id |
| ExpenseStore.ExpensesRepository.Update | src/expenses/repositories/expenses.repository.ts:47-72 | not found for the user: error, table unchanged; otherwise exactly the supplied fields assigned, description and category trimmed |
| ExpenseStore.ExpensesRepository.Delete | src/expenses/repositories/expenses.repository.ts:74-79 | succeeds exactly when the user owns the row, and removes only it |
| ExpenseStore.ExpensesRepository.BulkDelete | src/expenses/repositories/expenses.repository.ts:81-95 | all or nothing: fails, deleting nothing, unless the ids are distinct and all the user's, and then deletes exactly those rows |
| ExpenseStore.ExpensesRepository.FindByCategory | src/expenses/repositories/expenses.repository.ts:97-102 | exactly the user's expenses of that category |
| ExpenseStore.ExpensesRepository.FindRecurring | src/expenses/repositories/expenses.repository.ts:104-109 | exactly the user's recurring expenses |
| ExpenseStore.ExpensesRepository.GetMonthlyTotal | src/expenses/repositories/expenses.repository.ts:111-123 | the sum of the amounts of the user's expenses dated inside the month's window |
| ExpenseService.CreateCheck | src/expenses/expenses.service.ts:19-25 | passes exactly when the amount is positive and a recurring expense has a non-empty period, with the first failing guard's error |
| ExpenseService.UpdateCheck | src/expenses/expenses.service.ts:39-45 | passes exactly when a supplied amount is positive and a request setting recurring to true also sends a non-empty period |
| ExpenseService.CreatedIsSound | src/expenses/expenses.service.ts:18-36 | an expense created through the service has a positive amount and, if recurring, a period |
| ExpenseService.UpdateKeepsSound | src/expenses/expenses.service.ts:38-48 | an accepted update keeps both rules, provided an update that clears the period also sets recurring to false |
| ExpenseService.ClearingPeriodAccepted | src/expenses/expenses.service.ts:43-45 | clearing the period of a recurring expense is accepted and breaks the rule |
| ExpenseService.ExpensesService.CreateExpense | src/expenses/expenses.service.ts:18-36 | a failed guard returns its error and writes nothing; otherwise exactly the repository's create |
| ExpenseService.ExpensesService.UpdateExpense | src/expenses/expenses.service.ts:38-48 | a failed guard returns its error and writes nothing; otherwise the request forwarded unchanged to the repository update |
| CategoryStore.NewCategoryRow | src/categories/repositories/categories.repository.ts:31-36 | create's row: name trimmed, description null exactly when absent or empty |
| CategoryStore.PatchedCategoryIdempotent | src/categories/repositories/categories.repository.ts:48-56 | sending the same update twice stores the same row as sending it once |
| CategoryStore.CategoriesRepository.FindById | src/categories/repositories/categories.repository.ts:20-24 | a category is returned exactly when both id and owner match |
| CategoryStore.CategoriesRepository.Create | src/categories/repositories/categories.repository.ts:26-37 | inserts exactly create's row under the new id |
| CategoryStore.CategoriesRepository.Update | src/categories/repositories/categories.repository.ts:39-57 | not found for the user: error, table unchanged; otherwise only the supplied name (trimmed) and description assigned |
| CategoryStore.CategoriesRepository.Delete | src/categories/repositories/categories.repository.ts:59-64 | succeeds exactly when the user owns the row, and removes only it |
| CategoryStore.CategoriesRepository.Search | src/categories/repositories/categories.repository.ts:66-74 | exactly the user's categories whose name or description contains the query |
| CategoryStore.SearchFindsOwnName | src/categories/repositories/categories.repository.ts:66-74 | every category of the user matches the empty query and a search for its own name |
| CategoryService.ExactDuplicateClashes | src/categories/categories.service.ts:20-27 | a stored name equal to the trimmed new name is always reported as a conflict |
| CategoryService.ClashMeans | src/categories/categories.service.ts:20-23 | a conflict is exactly a category of the user (other than the excluded one) that matches the search and has the name ignoring case |
| CategoryService.OwnNameAllowedOnUpdate | src/categories/categories.service.ts:43-50 | renaming a category to its own name is allowed, although creating that name again is refused |
| CategoryService.CaseVariantNotFound | src/categories/categories.service.ts:20-23 | "food" equals "Food" ignoring case but is not found by the case-sensitive search |
| CategoryService.CategoriesService.CreateCategory | src/categories/categories.service.ts:18-34 | a conflict returns DuplicateCategoryName and writes nothing; otherwise exactly the repository's create |
| CategoryService.CategoriesService.UpdateCategory | src/categories/categories.service.ts:36-54 | with a name, the same check ignoring the category itself; without one, no check; then the repository update |
| CustomerStore.NewCustomerRow | src/customers/repositories/customers.repository.ts:34-42 | create's row: name trimmed, email, phone, address and notes null exactly when absent or empty |
| CustomerStore.PatchedCustomerIdempotent | src/customers/repositories/customers.repository.ts:61-67 | sending the same update twice stores the same row as sending it once |
| CustomerStore.CustomersRepository.FindById | src/customers/repositories/customers.repository.ts:20-24 | a customer is returned exactly when both id and owner match |
| CustomerStore.CustomersRepository.Create | src/customers/repositories/customers.repository.ts:26-43 | inserts exactly create's row under the new id |
| CustomerStore.CustomersRepository.Update | src/customers/repositories/customers.repository.ts:45-68 | not found for the user: error, table unchanged; otherwise exactly the supplied fields assigned, the name trimmed |
| CustomerStore.CustomersRepository.Delete | src/customers/repositories/customers.repository.ts:70-75 | succeeds exactly when the user owns the row, and removes only it |
| CustomerStore.CustomersRepository.Search | src/customers/repositories/customers.repository.ts:77-86 | exactly the user's customers whose name, email or phone contains the query |
| CustomerStore.SearchFindsOwnFields | src/customers/repositories/customers.repository.ts:77-86 | a customer is found by searching for its own name, email or phone |
| CustomerService.IndexOf | src/customers/customers.service.ts:60 | the position of the first occurrence of a character, or the length when there is none |
| CustomerService.IsValidEmailMatchesPattern | src/customers/customers.service.ts:59-62 | `isValidEmail` holds exactly when the string matches `^[^\s@]+@[^\s@]+\.[^\s@]+$` (both directions) |
| CustomerService.IsValidEmailMeansRules | src/customers/customers.service.ts:59-62 | `isValidEmail` holds exactly when there is no whitespace, exactly one '@' with text before it, and a '.' after it with text on both sides |
| CustomerService.CreateCheck | src/customers/customers.service.ts:20-26 | passes exactly when the name is not blank and a non-empty email is valid; a blank name gives CustomerNameRequired |
| CustomerService.UpdateCheck | src/customers/customers.service.ts:40-46 | passes exactly when a supplied name is not blank and a supplied non-empty email is valid; a blank name gives CustomerNameRequired, any other failure InvalidEmail |
| CustomerService.CreatedIsSound | src/customers/customers.service.ts:18-36 | a customer created through the service has a non-empty name and an empty, null or valid email |
| CustomerService.UpdateKeepsSound | src/customers/customers.service.ts:38-49 | an accepted update keeps both rules |
| CustomerService.EmptyEmailKeptByUpdate | src/customers/customers.service.ts:44-48 | an empty email passes the update check and is stored as "" |
| CustomerService.CustomersService.CreateCustomer | src/customers/customers.service.ts:18-36 | a failed guard returns its error and writes nothing; otherwise exactly the repository's create |
| CustomerService.CustomersService.UpdateCustomer | src/customers/customers.service.ts:38-49 | a failed guard returns its error and writes nothing; otherwise the request forwarded unchanged to the repository update |

## Left out

- Floating point: amounts and quantities are exact reals. The `parseFloat` column transformers and the decimal(10,2) and decimal(10,3) rounding of the database are not modelled.
- Dates: timestamps are integer milliseconds in the server's local time. Time zones and daylight saving are not modelled. "Now" and generated ids are parameters.
- Concurrency and transactions: each operation runs alone. The services issue independent writes with no surrounding transaction. The read-modify-write of stock is not modelled under interleaving. A persistence failure half-way through an operation, which would leave the earlier writes in place, is not modelled.
- Ordering: the `ORDER BY` of listings is not modelled, and neither is the order in which the database returns rows. Sums and the top-products groups are proved independent of that order.
- TopProducts.SortByRevenue: the model proves the sort is ordered and a permutation. It does not prove that products with equal revenue keep the order of first appearance, as JavaScript's stable sort does.
- ApplyStockChanges: the `stockChanges` entries are applied in an arbitrary order, where JavaScript uses insertion order. The result is the same, because each product occurs once.
- Text.ToLower: `toLowerCase` is modelled for ASCII and Latin-1 capitals only. Other Unicode case mappings are left out.
- Text.Contains: `Like('%q%')` is a plain substring test. The wildcards `%` and `_` inside the query, and database collation, are not modelled.
- Missing customer name: an absent name in a create request is modelled as the empty string, which the service refuses in the same way.
- DTO bounds: the validation bounds of the request classes (quantity at least 1, non-negative prices and totals) are not assumed. The operations are modelled for all inputs.
- The `findAll` methods of the products, expenses, categories and customers repositories are not modelled. Each is only an owner-filtered listing, like `TopProducts.Mine` for sales.
- The service methods that only forward to a repository method are not modelled separately: `getAll*`, `get*ById` (except `getSaleById`), `delete*` (except `deleteSale`), `search*`, `get*ByCategory`, `getRecurringExpenses`, `getLowStockProducts` and the expenses `getMonthlyTotal`. The repository method each one calls is modelled.
- `bulkDeleteSales`, `getSalesWithFilters` and the other `*WithFilters` and `bulkDelete*` service methods are not modelled. The controllers call them, but no code defining them is part of this model.
- The `update_product_stock_on_sale` database trigger, which the initial migration creates to take each inserted item's quantity off its product, is not modelled. The model follows the service's own stock loops.
- The `product_name` and `product_price` columns of sale items and the `deleted_at` column of products, which the later migration adds, are not modelled. The repositories never write them, and no read filters on the delete marker. The report takes each product's name from the joined product row (`TopProducts.NameOf`).
- Deleting a product: the foreign key from sale items to products is not modelled. The entity declares it `onDelete: 'RESTRICT'` (src/sales/entities/sale-item.entity.ts:27), and the later migration replaces it with `SET NULL`. In the model `ProductsRepository.Delete` removes a product even when it has been sold, and the sale's items keep pointing at the missing id. The stock loops then skip those items, as the service does for any product it cannot find for the user (`ShiftStock` leaves a product id that is not owned untouched).
- The users service is not part of this model. It consists of password hashing through a foreign library and a plain profile update.
- The create-customer and update-sale request classes are not part of this model. Their shapes are taken from the service and repository signatures.
- Controllers, modules and the HTTP layer are not modelled: routing, authentication guards and query-string parsing.
