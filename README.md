# BookStore inventory core in Dafny

A model of the inventory core of the BookStore Django shop, with proofs about it. Each book has
one `Stock`. A stock owns four tables:

- **batches** (lots received at a unit cost);
- an append-only **history ledger** of `restock`, `editstock`, `reserve`, `release_reserve` and
  `sold` rows;
- **reservations**, which hold units of a batch for an order line;
- **price changes**.

`StockService` changes these tables:

- it reserves an order line's quantity from the oldest batches first (FIFO);
- it releases reservations back to their batches, or finalises them as sold;
- it adds and edits batches;
- it changes the price.

The reporting functions read the same tables back: the per-batch annotations, the profit and
loss, the manual cross-check, and the revenue and the opening and closing stock of a period.
Around that core sit the request-level rules:

- the permission middleware;
- the soft-delete base model;
- the date-range, price-range and cart-total helpers;
- the field and form validators.

Modelling conventions:

- Money is a whole number of cents, and a discount percentage is a whole number of hundredths of
  a percent. These are the two-place `Decimal` columns, so 0..10000 means 0%..100%.
- `ROUND_HALF_UP` quantisation is `Decimals.QuantizeHalfUp`.
- Dates are `Calendar.Date`. Timestamps are integers.
- The clock (`timezone.now()`, `today`) and the acting user are parameters.

The central invariant is `StockLedger.Conserved`. It ties the tables of one stock together. For
every batch:

- the `restock` and `editstock` rows add up to its initial quantity;
- the `reserve` rows equal everything ever reserved on it;
- the closed reservations equal what was sold plus what was released;
- what remains, plus what is held, plus what was sold, equals the initial quantity.

Every method of `StockService.Stock` keeps this invariant as part of `Valid()`. The reports are
proved against it.

Two places where the code's own availability rules do not line up; the model follows each line
as written:

- `Stock.save` sets `is_available` only when the total remaining quantity is above 1 and the price
  is above 1.00 (`src/stock/models.py:57-58`). `can_sell` uses `> 0` for both
  (`src/stock/models.py:35-37`), so a stock with one unit left, or priced at 1.00, can be sold
  but is saved as unavailable (`StockModels.SellableButUnavailable`).
- `finalize_reservation` and `edit_stockBatch` never call `stock.save()`, so `is_available`
  keeps its old value there.

## Model

| member | source | states |
|---|---|---|
| StockService.ReserveBatches | src/stock/services.py:466-508 | The reservation loop reserves min(line quantity, stock on hand). It keeps the conservation invariant. The new tables are exactly the FIFO allocation drawn from the batches, one active reservation per take, and one `reserve` row per take. |
| StockService.Stock.ReserveForOrder | src/stock/services.py:464-508 | Succeeds iff the stock covers the line. On success the line's whole quantity is taken in FIFO order and recorded, and availability is recomputed. On `Not enough stock` every table is left as it was (rollback). Price data are untouched. |
| StockService.ReleaseRows | src/stock/services.py:523-545 | The release loop computes exactly the `Release` function of the tables. |
| StockService.Stock.ReleaseReservation | src/stock/services.py:510-550 | Keeps the invariant. The new tables are `Release` of the old ones. The stock is re-saved only when the line had an active reservation. |
| StockService.FinalizeRows | src/stock/services.py:560-574 | The finalise loop computes exactly the `Finalize` function of the tables. |
| StockService.Stock.FinalizeReservation | src/stock/services.py:552-574 | Keeps the invariant. The new tables are `Finalize` of the old ones. `is_available` and the price are unchanged. |
| StockService.Stock.AddStockBatch | src/stock/services.py:325-370 | A missing received date fails and changes nothing. Otherwise one batch is appended with remaining = initial, the restock date is set, availability is recomputed, and one `restock` row goes from the old stock total to the new one. The total grows by the quantity and the invariant is kept. |
| StockService.Stock.Restock | src/stock/services.py:374-377 | The same new state as `add_stock_batch`. |
| StockService.Stock.EditStockBatch | src/stock/services.py:385-462 | Each outcome is stated. A missing batch gives Not found. An unchanged form gives "No changes detected". A quantity change on a batch already drawn from is refused. A quantity change on an untouched batch resets remaining to the new quantity and logs `editstock` with the difference. A details-only edit changes cost, notes and date. Every refusal changes nothing, and the invariant is kept. |
| StockService.Stock.UpdateStockPrice | src/stock/services.py:306-322 | Price and discount are set and availability is recomputed. One price-history row goes from the old pair to the new one, so the history stays a chain ending at the current price. |
| StockService.Stock.UpdatePrice | src/stock/services.py:379-383 | The same new state as `update_stock_price`. |
| StockService.Stock.Save | src/stock/models.py:56-64 | `is_available` becomes the save rule applied to the stored batches and price. Nothing else changes. |
| StockService.NewBatch | src/stock/services.py:329-338 | A new batch starts with remaining equal to initial. |
| StockService.BatchNotes | src/stock/services.py:336 | An empty or missing note becomes a non-empty default. A given note is kept. |
| StockReservations.ReleaseFacts | src/stock/services.py:514-547 | Releasing a line keeps the invariant and leaves it no active reservation. Each batch gets back exactly what the line held on it. |
| StockReservations.FinalizeFacts | src/stock/services.py:555-574 | Finalising keeps the invariant and leaves the batches alone. It deactivates the line's reservations and adds exactly what the line held on each batch to that batch's sold total. |
| StockReservations.IdleChangesNothing | src/stock/services.py:514-519 | With no active reservation for the line, release and finalise leave every table unchanged. |
| StockReservations.AllocationLowersTotal | src/stock/services.py:475-508 | Reserving a quantity the stock covers lowers the stock total by exactly that quantity. |
| StockReservations.ReleaseAsWrittenLosesUnits | src/stock/services.py:523-545 | The release as written, on reachable tables, leaves the batch at 8 rather than 10. |
| StockReservations.ReleaseAsWrittenBreaksBalance | src/stock/services.py:523-545 | On the same tables, the release as written breaks the conservation of the batch. |
| StockReservations.ReleaseRestoresBoth | src/stock/services.py:523-545 | On the same tables, the corrected release returns both reservations, so the batch is back at 10. |
| StockReservations.LostUpdateTablesConserved | src/stock/services.py:483-500 | The tables of the counterexample satisfy the invariant, since two reserve calls for the same line can produce them. |
| StockReservations.ReleaseAsWrittenAgrees | src/stock/services.py:514-545 | When the line holds at most one reservation per batch, the release as written equals the corrected release. |
| StockFifo.FifoOrder | src/stock/services.py:472-473 | The query order holds exactly the batches with stock, each once. It is sorted by received date, then creation time. |
| StockFifo.AllocationFacts | src/stock/services.py:472-478 | The FIFO plan takes min(needed, total) in all. Each take is positive and within its batch, on distinct batches. Every take but the last empties its batch. |
| StockFifo.AllocationIsFifo | src/stock/services.py:472-478 | Any batch with stock that comes before a drawn batch in FIFO order is emptied earlier in the plan. |
| StockLedger.BatchConservation | src/stock/models.py:78-82 | Under the invariant, remaining + held + sold = initial, and remaining never exceeds initial. |
| StockLedger.ReserveKeeps | src/stock/services.py:479-500 | Taking t units from a batch, with its reservation and `reserve` row, keeps the invariant. |
| StockLedger.ReleaseKeeps | src/stock/services.py:528-545 | Returning an active reservation, with its `release_reserve` row, keeps the invariant. |
| StockLedger.FinalizeKeeps | src/stock/services.py:560-574 | Closing an active reservation, with its `sold` row, keeps the invariant. |
| StockLedger.AddBatchKeeps | src/stock/services.py:330-368 | Appending a full batch with its `restock` row keeps the invariant. |
| StockLedger.EditKeeps | src/stock/services.py:421-455 | A quantity correction of an untouched batch, with its `editstock` row, keeps the invariant. |
| StockLedger.DetailsEditKeeps | src/stock/services.py:460-462 | Changing a batch's details without its quantities keeps the invariant. |
| StockLedger.UntouchedBatchIsFree | src/stock/services.py:421-436 | A batch whose remaining equals its initial quantity has nothing held and nothing sold. This is why the edit guard is safe. |
| StockModels.ParseChangeType | src/stock/models.py:106-113 | A parsed change-type code is the code of the kind returned. |
| StockModels.ChangeTypeRoundTrip | src/stock/models.py:106-113 | Every change type's stored code parses back to it. |
| StockModels.TotalRemainingQuantity | src/stock/models.py:39-43 | An unsaved stock has 0. Otherwise the total bounds every batch, and it is 0 iff every batch is empty. |
| StockModels.SumRemainingZero | src/stock/models.py:39-43 | The sum of remaining quantities is 0 iff every batch is empty. |
| StockModels.AvailableOnSave | src/stock/models.py:56-62 | Available implies sellable. A single unit left is never available. |
| StockModels.SellableButUnavailable | src/stock/models.py:35-37 | Stocks exist that `can_sell` accepts and the save rule marks unavailable. |
| StockModels.DiscountFactor | src/stock/models.py:50-54 | The factor (1 - pct/100), rounded half up to 0.01, is within half a hundredth of the exact factor. It lies in [0, 1] for percentages in range, and is 1 at 0% and 0 at 100%. |
| StockModels.PriceAfterDiscount | src/stock/models.py:50-54 | The discounted price is within half a cent per unit of the exact one and between 0 and the price. It is the full price at 0% and 0 at 100%. |
| StockModels.DiscountAmount | src/stock/models.py:45-48 | Discount plus discounted price is the price. The discount is between 0 and the price, and 0 at 0%. |
| StockModels.BatchOnSave | src/stock/models.py:99-102 | The first save sets remaining to initial. Later saves keep the batch as it is. |
| StockManagers.WithProfitLoss | src/stock/managers.py:35-98 | Net amount = sold amount - sold quantity × unit cost. |
| StockManagers.WithFullDetails | src/stock/managers.py:100-101 | One row per batch, holding that batch's annotations and profit and loss. |
| StockManagers.UnsoldBatchFigures | src/stock/managers.py:76-86 | A batch without `sold` rows has zero sold total, quantity, revenue, cost and profit. |
| StockManagers.AnnotationsBalance | src/stock/managers.py:11-23 | Under the invariant, restock + edit totals = initial, the sold total is minus the sold quantity, and remaining + held + sold = initial. |
| StockManagers.NoEntriesNoSum | src/stock/managers.py:11-23 | A kind with no rows sums to 0 (the `Coalesce(..., 0)`) and names no order. |
| StockManagers.RevenueForAll | src/stock/managers.py:52-74 | When every closed reservation's order is among the sold orders, the revenue subquery equals the revenue of all closed reservations. |
| StockManagers.SoldFiguresWithoutReleases | src/stock/managers.py:40-74 | Without releases, the sold quantity is the closed reserved quantity and the sold amount is their revenue. |
| StockReports.VerifyBatchCalculation | src/stock/services.py:13-69 | The manual loop totals the closed reservations of the batch. The database figures are `with_profit_loss`. The match flag is true iff quantity and revenue agree. |
| StockReports.MatchIffNoRelease | src/stock/services.py:13-69 | Under the invariant, the cross-check matches iff the batch has no `release_reserve` rows. Released units stay in the closed reservations the manual loop counts. |
| StockReports.SoldOrders | src/stock/services.py:79-84 | An order is selected iff it has a `sold` row in the window. |
| StockReports.CalculateRevenueCost | src/stock/services.py:72-103 | The loop's revenue and cost are those of the closed reservations of the sold orders. |
| StockReports.NoOrdersNoRevenue | src/stock/services.py:86-89 | With no sold orders, revenue and cost are 0. |
| StockReports.QuietPeriodNoRevenue | src/stock/services.py:72-103 | A window without `sold` rows has no revenue or cost. |
| StockReports.OpeningClosingStock | src/stock/services.py:106-269 | Without a date filter the opening figures are 0 and there is no "not placed" figure. With one, period profit = closing value - opening value. |
| StockReports.QuietPeriodKeepsStock | src/stock/services.py:233-260 | Over a period without ledger rows, closing quantity = opening quantity, and nothing is in process, sold or unplaced. |
| StockReports.QuietPeriodKeepsValue | src/stock/services.py:202-258 | Over a period without ledger rows, closing value = opening value, and the period profit is 0. |
| StockReports.MovementSplit | src/stock/services.py:169-240 | Movement before the start plus movement in [start, end] is the movement up to end. |
| StockReports.ClosingCountsUpToEnd | src/stock/services.py:195-240 | With a period given, the closing quantity equals the on-hand movement of every ledger row up to the period's end, so the opening window and the period neither overlap nor leave a gap. |
| StockReports.AbsMovementOfSold | src/stock/services.py:115-118 | Taking absolute values of `sold` rows is the same as negating their sum, because every `sold` row is negative. |
| StockReports.BalancedAcross | src/stock/services.py:137-142 | The per-batch balance summed over all batches: restock + edit + reserve = remaining, and reserved = held + closed. |
| StockReports.UnfilteredMatchesTables | src/stock/services.py:111-167 | Under the invariant, the unfiltered report's closing quantity is the stock on hand. Its order-process figure is the held quantity, and its sold quantity is the total sold. |
| StockUtils.ValidateDateRange | src/stock/utils.py:6-42 | An error always names at least one of the two fields. |
| StockUtils.NoBoundsNoFilter | src/stock/utils.py:9-10 | No bounds given means no filter. |
| StockUtils.ValidRangeIff | src/stock/utils.py:35-42 | Valid iff neither bound is given, or both parse and `from` is not after `to`. A valid result carries the parsed dates. |
| StockUtils.MissingBoundReported | src/stock/utils.py:16-27 | One bound without the other reports the missing one. |
| StockUtils.MalformedBoundReported | src/stock/utils.py:18-33 | A bound that is given but does not parse is reported as malformed under its own key, whatever the other bound is. |
| StockUtils.ErrorsAccumulate | src/stock/utils.py:12-40 | A malformed `from` and a missing `to` are both reported. |
| StockUtils.ReversedRangeReported | src/stock/utils.py:35-37 | A reversed range reports both fields. |
| StockUtils.FormattedRangeRoundTrip | src/stock/utils.py:19-42 | Any ordered pair of valid dates, formatted as `%Y-%m-%d`, validates back to itself. |
| Calendar.ParseIsoDate | src/stock/utils.py:21 | A parsed date is a real calendar date. |
| Calendar.ParseFormat | src/stock/utils.py:21 | Parsing a formatted valid date gives it back. |
| Calendar.ShortFormsAccepted | src/stock/utils.py:21 | `strptime` also takes one-digit months and days. |
| Calendar.LeapDayRefused | src/stock/utils.py:21 | February 29 of a common year is refused. |
| Calendar.YearZeroRefused | src/stock/utils.py:21 | Year 0 is refused. |
| Calendar.LongDayRefused | src/stock/utils.py:21 | A three-digit day is refused. |
| Calendar.ShortYearRefused | src/stock/utils.py:21 | A two-digit year is refused. |
| Calendar.MonthThirteenRefused | src/stock/utils.py:21 | Month 13 is refused. |
| Calendar.BeforeTotal | src/stock/utils.py:35 | Date order is a strict total order. |
| SoftDelete.SafeDeleteModel.Delete | src/core/soft_delete.py:40-58 | Deleting a deleted object raises and changes nothing. Otherwise it stamps the time, records the user when one is given, and saves the two columns. |
| SoftDelete.SafeDeleteModel.Restore | src/core/soft_delete.py:67-77 | Restoring an active object raises and changes nothing. Otherwise it clears both columns and saves them. |
| SoftDelete.ActiveIsNotDeleted | src/core/soft_delete.py:79-94 | `is_active` is the negation of `is_deleted`. |
| SoftDelete.DeleteThenRestore | src/core/soft_delete.py:54-77 | Delete then restore succeeds and leaves the object active with no deleter. |
| SoftDelete.DeleteTwice | src/core/soft_delete.py:51-52 | A second delete is refused and keeps the first stamp. |
| Middleware.Decide | Project_B/middleware.py:63-123 | Skipped paths always proceed. Every redirect goes to one of the four named views. A redirect to log in happens only for anonymous users. |
| Middleware.RequiredPermission | Project_B/middleware.py:130-134 | The result is the permission of the first matching prefix, or none iff no prefix matches. |
| Middleware.SuperuserDecisions | Project_B/middleware.py:77-82 | A superuser proceeds iff the path is skipped or not a customer route. Otherwise the superuser is sent to the admin book list. |
| Middleware.AnonymousDecisions | Project_B/middleware.py:84-97 | An anonymous user proceeds iff the path is skipped, logged-out-only or exempt. Otherwise the user is sent to log in. |
| Middleware.LoggedInLeavesLoginPages | Project_B/middleware.py:85-88 | A logged-in user on a login or sign-up page is sent home. |
| Middleware.AdminPanelOnlyForSuperusers | Project_B/middleware.py:100-106 | `/admin-panel/...` proceeds iff the user is a logged-in superuser. Other logged-in users are sent home with the message. |
| Middleware.PathClassesDisjoint | Project_B/middleware.py:73-100 | Skipped and exempt paths are never logged-out-only pages or admin-panel paths; a customer route is neither skipped, logged-out-only nor in the admin panel; no logged-out-only page is in the admin panel. |
| Middleware.LoggedInDecisions | Project_B/middleware.py:84-123 | A logged-in user who is not a superuser proceeds iff the path is not logged-out-only, not in the admin panel and, for staff, not a non-exempt customer route. Logged-out-only pages send the user home with no message, the admin panel sends the user home with the message, and an ordinary customer is only ever sent home. |
| Middleware.StaffOnCustomerRoutes | Project_B/middleware.py:116-120 | Staff on any customer route that is not exempt are redirected to the Django admin with the message. |
| Middleware.AboutIsOpen | Project_B/middleware.py:77-92 | `/about/` proceeds for everyone except a logged-in superuser: the exemption comes before the staff rule. |
| Middleware.PermissionTable | Project_B/middleware.py:130-134 | `/books/` and `/users/` map to their permissions, and other paths need none. |
| BookFilters.IntLiteral | src/books/utils.py:18 | A literal is only recognised inside non-blank, stripped text. |
| BookFilters.ToInt | src/books/utils.py:16-20 | A missing value gives the fallback. |
| BookFilters.ToIntRoundTrip | src/books/utils.py:16-20 | Every integer's decimal text parses back to it. |
| BookFilters.ToIntIgnoresSpaces | src/books/utils.py:18 | Surrounding whitespace is ignored. |
| BookFilters.SpelledParses | src/books/utils.py:18 | Every optional sign, any zeros and the digits of a number parse to that number. |
| BookFilters.IntLiteralSpells | src/books/utils.py:18 | Whatever parses is, once stripped, an optional sign, zeros and the digits of the number it parses to. |
| BookFilters.IntLiteralIff | src/books/utils.py:17-20 | Parsing fails iff the stripped text spells no number. |
| BookFilters.ToIntSpec | src/books/utils.py:16-20 | The result is the number the stripped text spells, or the fallback exactly when the value is missing or spells none. |
| BookFilters.ToIntPlusSign | src/books/utils.py:18 | `"+5"` gives 5. |
| BookFilters.ToIntLeadingZeros | src/books/utils.py:18 | `"007"` gives 7. |
| BookFilters.ToIntMinusZero | src/books/utils.py:18 | `"-0"` gives 0. |
| BookFilters.ToIntRejectsWords | src/books/utils.py:19-20 | `"abc"` and `"1e3"` give the fallback. |
| BookFilters.ToIntFallsBack | src/books/utils.py:19-20 | A decimal such as "12.50" is not an integer and gives the fallback. |
| BookFilters.DbMax | src/books/utils.py:37 | With no prices, or a top price of 0, the result is 10000. Otherwise it is the top price in whole units, rounded up to a multiple of 100. |
| BookFilters.UpToHundred | src/books/utils.py:70 | The least multiple of 100 units at or above a price. |
| BookFilters.ClampPrices | src/books/utils.py:51-70 | The lower end is the request or 0. A request inside the prices with a gap of at least 500 is kept. A missing or out-of-range maximum becomes `db_max`. With non-negative prices the range is ordered, and at least 500 wide or topped up to the next hundred. |
| BookFilters.SearchPriceRange | src/books/utils.py:32-70 | No bounds means no filter and `db_max` as both ends. A bound with no prices available raises. Otherwise the parsed bounds are clamped. |
| CartTotals.RoundDecimal | src/cart/utils.py:8-12 | Half-up rounding to the cent. Values with at most two places are kept exactly. |
| CartTotals.RoundDecimalHalves | src/cart/utils.py:12 | Halves round away from zero. |
| CartTotals.ExactCents | src/cart/utils.py:8-12 | A whole number of cents is its own rounding. |
| CartTotals.ToNearestCent | src/cart/utils.py:8-12 | A rounded value is within half a cent of the exact one. |
| CartTotals.CalculateCartTotals | src/cart/utils.py:22-41 | The counts are the item count and quantity sum. The price total is exact. The discount is the half-up rounding to cents of the exact sum, and the amount to pay is the half-up rounding of the exact price minus the exact discount; so the discount is within half a cent of the exact sum and the amount to pay within a cent of price minus discount. |
| CartTotals.DiscountWithinSubtotal | src/cart/utils.py:15-19 | A 0–100% discount on a line is between 0 and the line's subtotal. It is 0 at 0% and the whole subtotal at 100%. |
| CartTotals.DiscountsWithinSubtotals | src/cart/utils.py:29 | The summed discounts are between 0 and the summed subtotals. |
| CartTotals.TotalDiscountWithinPrice | src/cart/utils.py:28-40 | The rounded discount and the rounded amount to pay both lie between 0 and the total price. |
| CartTotals.NoDiscountCart | src/cart/utils.py:28-40 | Without discounts, the discount is 0 and the amount to pay is the total price. |
| CartTotals.RoundedFiguresMayDisagree | src/cart/utils.py:31-40 | The three rounded figures need not add up: price 0.05, discount 0.01, to pay 0.05. |
| Decimals.QuantizeHalfUp | src/cart/utils.py:12 | The quantised value is the half-up rounding of the input. |
| Decimals.QuantizeNegate | src/cart/utils.py:12 | Rounding is symmetric about zero. |
| CoreValidators.ValidateNumber | src/core/validators/numbers.py:4-6 | Passes iff the text is non-empty and all digits. |
| CoreValidators.NumbersPass | src/core/validators/numbers.py:4-6 | Every natural's decimal text passes, and the empty text fails. |
| CoreValidators.ValidatePositiveInteger | src/core/validators/numbers.py:9-11 | Passes iff the value is at least 0. |
| CoreValidators.ValidateDiscountPercentage | src/core/validators/numbers.py:14-16 | Passes iff the value is in 0–100%. |
| CoreValidators.ValidateMinimumStock | src/core/validators/numbers.py:19-21 | Passes iff the value is at least 1. |
| CoreValidators.MinimumStockIsStricter | src/core/validators/numbers.py:9-21 | The minimum-stock check implies the positive-integer check. They differ exactly at 0. |
| CoreValidators.ValidateCurrentPrice | src/core/validators/stock.py:4-12 | Passes iff a price is given and is at least 1.00. Each failure gives its own message. |
| CoreValidators.ValidateFutureDate | src/core/validators/dates.py:7-9 | Passes iff the date is not before today. |
| CoreValidators.ValidatePastDate | src/core/validators/dates.py:12-14 | Passes iff the date is not after today. |
| CoreValidators.TodayIsBoth | src/core/validators/dates.py:7-14 | Both checks pass iff the date is today, and at least one always passes. |
| CoreValidators.ValidateDate | src/core/validators/dates.py:17-27 | Date objects pass. Text passes iff it parses. Other values fail. |
| CoreValidators.IsoDatesPass | src/core/validators/dates.py:17-27 | Formatted valid dates pass, and a non-leap February 29 fails. |
| StringValidators.ValidateNoSpecialChars | src/core/validators/strings.py:6-8 | Passes iff the text is non-empty and alphanumeric. |
| StringValidators.SpacesAreSpecial | src/core/validators/strings.py:6-8 | Any whitespace character makes the check fail. |
| StringValidators.SanitizeSpaces | src/core/validators/strings.py:11-13 | The result is stripped and single-spaced, and has the same words (maximal runs of non-whitespace) in the same order, hence the same non-space characters. |
| StringValidators.CollapseKeepsWords | src/core/validators/strings.py:12 | Replacing each run of whitespace by one space keeps the words. |
| StringValidators.SanitizeIsCanonical | src/core/validators/strings.py:11-13 | Any stripped, single-spaced text with the words of the input is the sanitised input: the contract determines the result. |
| StringValidators.SanitizeIdempotent | src/core/validators/strings.py:11-13 | Sanitising twice is sanitising once. |
| StringValidators.SanitizedIsFixed | src/core/validators/strings.py:11-13 | Sanitised text is left unchanged. |
| StringValidators.ValidateMinLength | src/core/validators/strings.py:16-18 | Passes iff the stripped text is long enough. |
| StringValidators.MinLengthIgnoresPadding | src/core/validators/strings.py:16-18 | Stripping first does not change the outcome. |
| FormValidators.ValidateValueRequired | src/core/forms/validators.py:4-6 | Passes iff a value is given. |
| FormValidators.ValidatePercentage | src/core/forms/validators.py:9-13 | A missing value is required. A given value passes iff it is in 0–100%. |
| FormValidators.PercentageChecksAgree | src/core/forms/validators.py:9-13 | The form check agrees with the field check on every given value, and the bounds 0% and 100% are inclusive. |
| FormValidators.ValidateNoLeadingTrailingSpaces | src/core/forms/validators.py:16-21 | A missing value is required. Non-text passes. Failures report the padding. |
| FormValidators.PaddedTextIff | src/core/forms/validators.py:16-21 | Text passes iff stripping leaves it unchanged. |
| FormValidators.SanitizedTextPasses | src/core/forms/validators.py:16-21 | Sanitised text always passes. |
| StockValidators.CleanPrice | src/stock/validators.py:4-11 | Accepts iff the price is missing or not negative, and returns it unchanged. |
| StockValidators.CleanDiscountPercentage | src/stock/validators.py:14-22 | Accepts iff the percentage is missing or in 0–100%, and returns it unchanged. |
| StockValidators.CleanPriceIsLooser | src/stock/validators.py:4-11 | Every price the model validator accepts, the form accepts. They differ exactly on missing prices and prices below 1.00. |
| StockValidators.DiscountChecksAgree | src/stock/validators.py:14-22 | The form clean, the field validator and the form validator agree on every given percentage. |

## Left out

- The ORM itself is not modelled. Querysets, `select_for_update` row locks, `transaction.atomic` and
  concurrent requests become sequences in one `Stock` object. A failed method leaves every field
  unchanged, as a rolled-back transaction would.
- Reservation row order is not modelled. `order_item.reservation.filter(...)` has no `ORDER BY`,
  so the model visits reservations in table order.
- Ties in the batch `ORDER BY received_date, created_at` are broken by table position, since the
  database leaves them undefined.
- `compute_batch_sold_cost` (`src/stock/services.py:272-303`) is not modelled: no operation of the
  core calls it.
- The `if not batch: continue` branch of the release (`src/stock/services.py:525-526`) is left out.
  A reservation's batch is a non-null cascading foreign key, so the branch cannot run; the model
  states this as `StockReservations.Linked`.
- The fallback for a missing received date in `add_stock_batch` (`src/stock/services.py:342-353`)
  is left out. It passes `received_date=None` to a NOT NULL column, so it is modelled as the
  `MissingReceivedDate` error.
- The `Decimal` context precision (28 digits) and the column widths are not modelled:
  `max_digits=10`, and `PositiveIntegerField` is a 32-bit field. Money and quantities are
  unbounded integers.
- The `stock__book_id` filters of the annotations and of `verify_batch_calculation` are left out.
  The model is the tables of one stock, which belongs to one book.
- The `date_format` parameter of `validate_date_range` is fixed to `%Y-%m-%d`, the only format
  passed.
- `print` calls, Django `messages`, redirects as HTTP responses, and `get_response` are not
  modelled. A decision is `Proceed` or a redirect target with its flash message.
- `hard_delete` is not modelled: it is a plain database delete.
- `int()` in `to_int` also accepts digit-group underscores (`"1_000"`) and non-ASCII Unicode
  digits. These are not modelled; only ASCII digits with an optional sign are.
- Calendar.ParseIsoDate: `strptime`'s `%Y`, `%m` and `%d` also accept non-ASCII Unicode decimal
  digits (an Arabic-Indic year, say). The model accepts ASCII digits only, so such a date is
  reported as malformed here.
- `str.isdigit` and `str.isalnum` are modelled on ASCII letters and digits only.
- `math.ceil` in `searchfilter_bookStore` is exact here. When `max_val` is an `int`, the source's
  `max_val / 100` is a float division, which loses precision above 2^53.
- `db_min` (`src/books/utils.py:36`) is computed and never read, so it is not modelled.
- The search query of `searchfilter_bookStore` (title, author and publisher filters, the sort
  order, `distinct`) is not modelled; only its price-range arithmetic is.
- In `calculate_cart_totals`, `Cart.objects.get_or_create` and the database reads are not
  modelled. The cart is given as its list of items.
- `round_decimal` on a float goes through `str()`. The model takes exact decimal values only.
- `timezone.now()` and `date.today()` are parameters.
- StockManagers.WithProfitLoss: `OrderItem` (`src/orders/models.py:34-54`) has no
  `discount_amount` field, so the `Cast("order_item__discount_amount", ...)` of
  `src/stock/managers.py:69` raises `FieldError` when the annotation is built. The model reads the
  value as an optional per-line discount that defaults to 0 (`OrderItem.discountAmount`).
- StockManagers.WithFullDetails: it builds on the same annotation as `with_profit_loss`, so as
  written it raises `FieldError` on the missing `order_item__discount_amount` field. The model
  reads the value as an optional per-line discount that defaults to 0.
- StockReports.VerifyBatchCalculation: `OrderItem` has no `discount_amount` attribute, so
  `res.order_item.discount_amount` (`src/stock/services.py:31`) raises `AttributeError` at the first
  closed reservation. The model reads the value as an optional per-line discount that defaults to 0.
- StockReports.CalculateRevenueCost: `OrderItem` has no `discount_amount` attribute, so
  `r.order_item.discount_amount` (`src/stock/services.py:97`) raises `AttributeError` at the first
  closed reservation. The model reads the value as an optional per-line discount that defaults to 0.
- StockUtils.ValidateDateRange: its own contract only says that an error names a field. The
  complete behaviour is stated by the lemmas beside it (`ValidRangeIff` and the others).
- Middleware.Decide: its own contract states three global facts. The behaviour of each kind of
  user is stated by `SuperuserDecisions`, `AnonymousDecisions` and `LoggedInDecisions`, which
  together cover every user.
- BookFilters.ToInt: its own contract covers the missing value only. Which texts parse, and to
  what, is stated by `ToIntSpec` (through `Spells`, `SpelledParses` and `IntLiteralSpells`).
- BookFilters.IntLiteral: its own contract only says where a literal can be found. Which texts it
  accepts, and the value, is stated by `IntLiteralIff`, `SpelledParses` and `IntLiteralSpells`.
- BookFilters.ClampPrices: it states the properties of the resulting range (`Clamped`), not the
  value after every one of the source's reassignments.
- BookFilters.SearchPriceRange: when the filter is applied it states `Clamped` of the parsed bounds,
  the same properties and not the exact range. For example, when a requested minimum above the
  clamped maximum triggers the reset of `src/books/utils.py:58-59`, the contract does not say that
  the range restarts at 0 and ends at the lowest price (widened to 500); it only keeps the range
  ordered, at least 500 wide unless empty, and under `db_max` plus the gap.
- StockService.Stock.ReleaseReservation: it states the corrected release, with each batch re-read.
  The release as written is `StockReservations.ReleaseAsWritten`; see Findings.

## Findings

| source | as written | input that shows it | evidently intended | confidence | as-written member | corrected member |
|---|---|---|---|---|---|---|
| src/stock/services.py:523-545 | `release_reservation` loads every reservation with `select_related('batch')`, so each row carries its own copy of the batch. Each iteration writes that copy's `remaining_quantity` plus its own quantity, so when one order line holds two reservations on the same batch, the first write is lost. | A batch of 10 with 5 remaining, and one order line holding two active reservations on it, of 2 and 3 units. Two `reserve_for_order` calls for the line produce these tables, and the conservation invariant holds on them. Released as written, the batch ends at 8 and the last `release_reserve` row says `after = 8`. | Every released unit goes back: the batch ends at 10 and the ledger still balances. That requires re-reading the batch for each reservation. | not executed | StockReservations.ReleaseAsWrittenLosesUnits | StockReservations.ReleaseFacts |
