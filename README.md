# StockSight client store and views, in Dafny

StockSight is a shop-keeping web client for small retailers. An owner keeps
an inventory, records and reviews sales, and manages sales reps. Each rep
logs in with a PIN, records sales and adds stock. All of the data lives in
one client-side store with five collections: products, sales, stock logs,
sales reps and activities. The store also holds the current user. Twelve
operations change the store, and each one replaces whole collections.

This project models that store and the pages and forms that read or call it:

- **The store** is a value, `StoreOps.StoreState`. Each of its twelve
  operations is a function on it: `setCurrentUser`, `addProduct`,
  `updateProduct`, `deleteProduct`, `addStock`, `recordSale`, `approveSale`,
  `disputeSale`, `addActivity`, `addSalesRep`, `updateSalesRep` and
  `deleteSalesRep`. There is also a `DomainStore.Store` class. Its fields
  are the collections, and its methods update them in place. Each method
  replaces the state with the matching function's result.
- **StoreProps** proves what the operations do and what they keep:
  - the exact effect of each operation, and what it leaves alone;
  - the stock ledger only grows;
  - rep counters stay non-negative over any run of calls;
  - a recorded sale that is then disputed restores stock and counters;
  - the sharp edges the code leaves in place. Stock can go negative, a
    second line item for the same product is ignored, and a sale can be
    disputed twice.
- **The pages and forms** are one module each, in the form the source
  takes:
  - the owner's dashboard cards, low-stock carousel and staff summary;
  - the inventory, sales, reports and users pages;
  - the cash reconciliation panel;
  - the owner's record-sale and add-stock forms;
  - the rep's home, record-sale and add-stock pages;
  - the login, registration and forgot-password forms.

  Pure computations are functions with lemmas. Components whose state the
  source mutates are classes with `modifies` clauses. The pages' seven-day
  loop and category fold are methods proved against the functions they
  compute.
- **Shared notions** live in `Domain`, with generic sequence and text
  functions in `Seqs` and `Text`:
  - Time is whole milliseconds on the local clock. The calendar day of a
    moment is `t / 86400000`.
  - Money is an integer number of naira.
  - Ids and clocks are parameters. `stamp` stands for
    `Date.now().toString()` and `now` stands for `new Date()`.

## Model

| member | source | states |
|---|---|---|
| DomainStore.Store.constructor | lib/store.ts:97-102 | The store starts with every collection empty and nobody logged in. |
| DomainStore.Store.SetCurrentUser | lib/store.ts:104-118 | The new state is `StoreOps.SetCurrentUser` of the old one. |
| DomainStore.Store.AddProduct | lib/store.ts:120-138 | The new state is `StoreOps.AddProduct` of the old one. |
| DomainStore.Store.UpdateProduct | lib/store.ts:140-146 | The new state is `StoreOps.UpdateProduct` of the old one. |
| DomainStore.Store.DeleteProduct | lib/store.ts:148-152 | The new state is `StoreOps.DeleteProduct` of the old one. |
| DomainStore.Store.AddStock | lib/store.ts:154-189 | The new state is `StoreOps.AddStock` of the old one. An unknown product returns early. |
| DomainStore.Store.RecordSale | lib/store.ts:191-256 | For a sale whose products all exist, the new state is `StoreOps.RecordSale` of the old one. |
| DomainStore.Store.ApproveSale | lib/store.ts:258-277 | The new state is `StoreOps.ApproveSale` of the old one. |
| DomainStore.Store.DisputeSale | lib/store.ts:279-325 | The new state is `StoreOps.DisputeSale` of the old one. An unknown sale changes nothing. |
| DomainStore.Store.AddActivity | lib/store.ts:327-334 | The new state is `StoreOps.AddActivity` of the old one. |
| DomainStore.Store.AddSalesRep | lib/store.ts:336-355 | The new state is `StoreOps.AddSalesRep` of the old one. |
| DomainStore.Store.UpdateSalesRep | lib/store.ts:357-361 | The new state is `StoreOps.UpdateSalesRep` of the old one. |
| DomainStore.Store.DeleteSalesRep | lib/store.ts:363-367 | The new state is `StoreOps.DeleteSalesRep` of the old one. |
| StoreOps.FindProductPresent | lib/store.ts:155 | When a product with the id exists, `find` returns a product with that id. |
| StoreOps.ClampAtZero | lib/store.ts:300-301 | `Math.max(0, x)` is non-negative, at least `x`, and equal to `x` when `x` is not negative. |
| StoreOps.SaleLogs | lib/store.ts:212-226 | `recordSale` writes exactly one ledger entry per line item. |
| StoreProps.AddStockOnKnownProduct | lib/store.ts:154-189 | On a known id: every product with the id gains `quantity` and gets a new `updatedAt`, and the others are unchanged. One "add" log is prepended. It carries the first match's before and after levels, the note and the actor (`currentUser?.id`, else "owner"). One stock activity is prepended. Sales, reps and the user are unchanged. |
| StoreProps.AddStockOnUnknownProduct | lib/store.ts:155-156 | An unknown product id leaves the whole state as it was. |
| StoreProps.RecordSaleEffects | lib/store.ts:191-256 | One sale with id `stamp` and the draft's status is prepended. One "sale" log per line item is prepended, in order. Each log holds its product's level before the sale, that level minus the item's quantity, and the rep's id. One sale activity carrying the total is prepended. A product loses the quantity of the FIRST line item naming it, and products with no item are unchanged. The user is unchanged. |
| StoreProps.DuplicateItemsDeductOnce | lib/store.ts:199-209 | With two line items for one product, stock falls by the first item's quantity only. A log is still written for each item. |
| StoreProps.SaleCanDriveStockNegative | lib/store.ts:199-209 | Selling more than is in stock leaves a negative quantity, because nothing checks the level first. |
| StoreProps.RecordSaleCredits | lib/store.ts:238-247 | Every rep with the sale's rep id gains the total in both counters, whatever the sale's status. Other reps are unchanged. An id that matches nobody, such as "owner", changes no rep. |
| StoreProps.DisputeSaleDebits | lib/store.ts:296-305 | Disputing a known sale lowers both counters of the sale's rep, clamped at zero, so they stay non-negative. Other reps are unchanged. |
| StoreProps.CountersStayNonNegative | lib/store.ts:238-247 | Every operation keeps rep counters non-negative, provided no sale has a negative total and no update writes a negative counter. |
| StoreProps.DeleteKeepsCounters | lib/store.ts:363-367 | Deleting reps keeps the remaining counters non-negative. |
| StoreProps.AddKeepsCounters | lib/store.ts:336-344 | A new rep starts at zero, so counters stay non-negative. |
| StoreProps.UpdateKeepsCounters | lib/store.ts:357-361 | An update that writes no negative counter keeps counters non-negative. |
| StoreProps.RepsUntouched | lib/store.ts:104-189 | Only the rep operations, `recordSale` and `disputeSale` change the reps. |
| StoreProps.CountersNonNegativeOverRun | lib/store.ts:94-367 | Over any sequence of calls that each keep the counters non-negative, the counters stay non-negative. A `recordSale` that throws leaves the state unchanged. |
| StoreProps.RecordThenDisputeRestores | lib/store.ts:191-325 | Recording a sale and then disputing it restores every product's quantity and id. It leaves products the sale does not name untouched, and restores non-negative rep counters exactly. The sale ends disputed, the earlier sales follow it unchanged, and the sale's logs stay. |
| StoreProps.RecordThenDisputeProducts | lib/store.ts:199-209 | This is the product half of the round trip: quantities and ids come back, and unnamed products are untouched. Lines 283-293 of the same file are the undo half. |
| StoreProps.RecordThenDisputeReps | lib/store.ts:238-247 | This is the rep half of the round trip: non-negative counters come back exactly. Lines 296-305 are the undo half. |
| StoreProps.LogsOnlyGrow | lib/store.ts:186 | After any completed call, the old ledger is a suffix of the new one. Lines 252 and 150 of the same file matter too: deleting a product keeps its logs. |
| StoreProps.AddStockLogsGrow | lib/store.ts:154-189 | `addStock` prepends at most one entry to the ledger. |
| StoreProps.LogsUntouched | lib/store.ts:104-152 | Only `addStock` and `recordSale` write to the ledger. |
| StoreProps.LogsOnlyGrowOverRun | lib/store.ts:94-367 | Over any sequence of calls, the first ledger is a suffix of the last. |
| StoreProps.ApproveSaleEffects | lib/store.ts:258-277 | Every sale with the id becomes approved, and the other sales are unchanged. Products, reps, logs and the user are untouched. An activity is added exactly when a sale with the id exists, and the old activities remain a suffix. |
| StoreProps.ApproveIgnoresStatus | lib/store.ts:261 | Approving a disputed sale is not refused: it becomes approved. |
| StoreProps.DisputeTwiceRestocksTwice | lib/store.ts:279-293 | Disputing the same sale twice adds each product's first line-item quantity back twice. |
| StoreProps.UpdateProductFrame | lib/store.ts:140-146 | Only the products with the id change, each to `{...p, ...updates}` with a new `updatedAt`. The rest of the state is unchanged. |
| StoreProps.UpdateSalesRepFrame | lib/store.ts:357-361 | Only the reps with the id change, each to `{...r, ...updates}`. The rest of the state is unchanged. |
| StoreProps.DeleteProductExact | lib/store.ts:148-152 | Every product without the id is kept, in order, and none with it is. Everything else is unchanged, including sales and logs. |
| StoreProps.DeleteSalesRepExact | lib/store.ts:363-367 | Every rep without the id is kept, in order, and none with it is. Everything else is unchanged. |
| StoreProps.AddSalesRepStartsAtZero | lib/store.ts:336-355 | The new rep is appended with the draft's name, email, phone, PIN and active flag, id `stamp`, creation time `now`, and both counters at zero. One activity is prepended, and everything else (products, sales, ledger, current user) is unchanged. |
| StoreProps.SetCurrentUserEffects | lib/store.ts:104-118 | The user is set. Logging out records nothing. Logging in prepends one login activity for that rep. Nothing else changes. |
| StoreProps.AddProductAppends | lib/store.ts:120-138 | The new product is appended with every field of the draft (name, category, quantity, unit, both prices, threshold, description), id `stamp` and equal creation and update times. One activity is prepended, and everything else (sales, ledger, reps, current user) is unchanged. |
| StoreProps.AddActivityPrepends | lib/store.ts:327-334 | The activity is prepended with the draft's message and type. Nothing else changes. |
| Domain.Midnight | app/dashboard/page.tsx:26-27 | `setHours(0, 0, 0, 0)` lies on the same day as `now`, no later than it and less than a day before it. |
| Domain.SameDayIsTodayWindow | app/rep/page.tsx:21 | Two moments print the same `toDateString()` exactly when the first lies in the day that starts at the second's midnight. |
| Domain.DayOfShift | app/dashboard/reports/page.tsx:37-38 | `setDate(getDate() - i)` moves the calendar day back by exactly `i`. |
| Domain.Weekday | app/dashboard/reports/page.tsx:39 | `getDay()` lies between 0 and 6. |
| Domain.EmptyPatchesChangeNothing | lib/store.ts:143 | A `Partial` with no fields leaves a product or a rep as it is. |
| Domain.OrOne | components/dashboard/record-sale-form.tsx:167 | `parseInt(v) \|\| 1` is never 0. It is the parsed number when that number is not 0, and 1 when nothing parses. |
| Domain.OrUndefined | components/inventory/add-stock-form.tsx:29 | `note \|\| undefined` is absent exactly for the empty text, and otherwise is the text. |
| Domain.OrElse | lib/store.ts:168-169 | `value \|\| fallback` on a string: a non-empty value is kept, the empty (falsy) string gives the fallback, and the result is never empty when the fallback is not. `currentUser?.id \|\| "owner"` and `currentUser?.name \|\| "Owner"` are both this. |
| Domain.LowStockProducts | app/dashboard/page.tsx:25 | Exactly the products with quantity at or below their threshold. |
| Domain.LowAndInStockPartition | app/dashboard/page.tsx:25-37 | The low-stock and in-stock counts add up to the product count. |
| Domain.OutOfStockIsLowStock | app/dashboard/page.tsx:44 | With no negative thresholds, no more products are out of stock than are low on stock. |
| DashboardStats.LowStockChange | app/dashboard/page.tsx:44 | "All healthy" exactly when nothing is low on stock. Otherwise the card shows the out-of-stock count. |
| DashboardStats.StockCardsPartition | app/dashboard/page.tsx:24-37 | The "in stock" line and the low-stock card together account for every product. |
| DashboardStats.OutOfStockNoteWithinLowStock | app/dashboard/page.tsx:43-44 | With no negative thresholds, the out-of-stock note never exceeds the low-stock count. A healthy store has nothing out of stock. |
| DashboardStats.TodayWithinRevenue | app/dashboard/page.tsx:28-31 | With no negative amounts, today's takings lie between zero and the total revenue. |
| DashboardStats.DisputedSaleCountsAsTransaction | app/dashboard/page.tsx:29-51 | A sale disputed today adds one transaction, but adds nothing to the takings or the revenue. |
| DashboardStats.ApprovedCountIsAllTime | app/dashboard/page.tsx:51-59 | An approved sale from an earlier day raises the approved count but not today's transactions. |
| LowStockCarousel.Next | components/dashboard/low-stock-carousel.tsx:29-31 | The next index is in range. It is one more than the current index, and it wraps from the last item to 0. |
| LowStockCarousel.Prev | components/dashboard/low-stock-carousel.tsx:25-27 | The previous index is in range. It is one less than the current index, and it wraps from 0 to the last item. |
| LowStockCarousel.PrevAfterNext | components/dashboard/low-stock-carousel.tsx:25-31 | Back after forward returns to the same index, and so does forward after back. |
| LowStockCarousel.FullRotation | components/dashboard/low-stock-carousel.tsx:19-21 | After `k` timer ticks, the index is `(i + k) % n`. |
| LowStockCarousel.RotationCycles | components/dashboard/low-stock-carousel.tsx:19-21 | After `n` ticks, the carousel is back at the item it started on. |
| LowStockCarousel.CurrentItem | components/dashboard/low-stock-carousel.tsx:56 | The corrected item on show is always one of the items. It agrees with the source whenever the index is in range. |
| LowStockCarousel.CurrentItemIsLowStock | components/dashboard/low-stock-carousel.tsx:13 | The item on show is a product of the store at or below its threshold. |
| LowStockCarousel.StaleIndexAfterRestock | components/dashboard/low-stock-carousel.tsx:13-57 | Take two low-stock items, move to the second, then restock it. One item is left, the index is still 1, and the source's current item is undefined. The corrected card shows the remaining item. |
| LowStockCarousel.IsCriticalAsWritten | components/dashboard/low-stock-carousel.tsx:56-57 | The source's `currentItem.quantity === 0` throws exactly when the index is past the end. In range, it is the corrected test. |
| LowStockCarousel.Carousel.constructor | components/dashboard/low-stock-carousel.tsx:14 | The index starts at 0. |
| LowStockCarousel.Carousel.GoToNext | components/dashboard/low-stock-carousel.tsx:29-31 | The index becomes `Next` of the old one. The button exists only with two or more items. |
| LowStockCarousel.Carousel.GoToPrev | components/dashboard/low-stock-carousel.tsx:25-27 | The index becomes `Prev` of the old one. |
| LowStockCarousel.Carousel.SelectDot | components/dashboard/low-stock-carousel.tsx:115-118 | A dot sets the index to its own position. |
| LowStockCarousel.Carousel.Tick | components/dashboard/low-stock-carousel.tsx:17-23 | A tick moves forward when there are two or more items, and changes nothing otherwise. |
| StaffSummary.RepStats | components/dashboard/staff-summary.tsx:16-24 | One entry per rep, in order. Each entry equals its rep except `todaySales`, which is the sum of that rep's sales made today and not disputed. |
| StaffSummary.StoredCounterIgnored | components/dashboard/staff-summary.tsx:17-23 | The stored `todaySales` counter is overwritten. Reps that differ only in it give the same card. |
| StaffSummary.RepTodaySalesAppend | components/dashboard/staff-summary.tsx:18-22 | A new sale raises a rep's takings by its amount exactly when it is that rep's, from today and not disputed. Otherwise the takings are unchanged. |
| StaffSummary.ActiveReps | components/dashboard/staff-summary.tsx:26 | Exactly the active entries. |
| StaffSummary.ByTodayDescIsTotalPreorder | components/dashboard/staff-summary.tsx:27 | The comparator `b.todaySales - a.todaySales` is total and transitive. |
| StaffSummary.TopPerformerIsBest | components/dashboard/staff-summary.tsx:26-27 | A top performer exists exactly when some rep is active. It is an active rep whose takings no active rep exceeds. |
| StaffSummary.TopPerformerIsFirstOfTies | components/dashboard/staff-summary.tsx:27 | Among active reps tied for the best takings, the stable sort makes the first in card order the top performer. |
| StaffSummary.AtMostOneTopBadge | components/dashboard/staff-summary.tsx:87 | With distinct ids, at most one row carries the TOP badge, and only a row with takings today. |
| StaffSummary.NoTakingsNoBadge | components/dashboard/staff-summary.tsx:87 | A rep with no takings today never shows the badge. |
| Text.Lower | app/dashboard/users/page.tsx:54-55 | `toLowerCase` keeps the length and lowers each character independently. The model covers ASCII letters only; see "Left out". |
| Text.IncludesEmpty | app/dashboard/users/page.tsx:54-55 | The empty query occurs in every text, so an empty search matches everything. |
| Text.IncludesSelf | app/dashboard/inventory/page.tsx:66 | Every text contains itself. |
| Text.CompareStrings | app/dashboard/inventory/page.tsx:81 | `localeCompare` gives -1, 0 or 1, and 0 exactly for equal texts. The model uses code-point order. |
| Text.CompareStringsAntisymmetric | app/dashboard/inventory/page.tsx:81 | Swapping the operands negates the comparison. |
| Text.CompareStringsTransitive | app/dashboard/inventory/page.tsx:81 | The order is transitive. |
| Text.DigitsOnly | app/dashboard/users/page.tsx:267 | `replace(/\D/g, "")` keeps exactly the digits of the text, in order: the result is the filter of the input by "is a digit", so it is all digits and never longer than the input. |
| Text.DigitsOnlyOfDigits | app/dashboard/users/page.tsx:267 | A text of digits is left as it is. |
| Text.Take | app/dashboard/users/page.tsx:267 | `slice(0, n)` is a prefix of at most `n` characters, and the whole text when that is short enough. |
| Text.SplitOnSpace | app/dashboard/reports/page.tsx:86 | `split(" ")` always yields at least one piece. |
| Text.SplitPiecesHaveNoSpace | app/dashboard/reports/page.tsx:86 | No piece contains a space. |
| Text.SplitAtSpace | components/dashboard/staff-summary.tsx:72-75 | Splitting `a + " " + b` gives the pieces of `a` followed by the pieces of `b`. |
| Text.SplitWithoutSpace | app/dashboard/reports/page.tsx:86 | A text without spaces is one piece, so the first word of a one-word name is the name. |
| Text.FirstCharsAppend | components/dashboard/staff-summary.tsx:74-75 | `map((n) => n[0]).join("")` distributes over joined lists of pieces. |
| Text.InitialsAtSpace | components/dashboard/staff-summary.tsx:72-75 | The initials of `a + " " + b` are the initials of `a` followed by those of `b`. |
| Text.InitialsOfWord | components/dashboard/staff-summary.tsx:72-75 | A single word contributes exactly its first character. |
| Text.InitialsOfTwoWords | app/dashboard/users/page.tsx:136-139 | The users page shows a "First Last" name as the two first letters. The staff summary uses the same expression. |
| Text.NatString | lib/store.ts:176 | `${quantity}` in the stock activity message: a non-empty string of digits whose decimal value (Text.DigitsValue) is the number itself, with no leading zero except for 0. |
| InventoryView.Categories | app/dashboard/inventory/page.tsx:58-61 | `Array.from(new Set(...))` lists each product's category, each category once, and nothing else. |
| InventoryView.CategoriesInFirstAppearanceOrder | app/dashboard/inventory/page.tsx:58-61 | The categories are in order of first appearance. Wherever a later category occurs among the products, an earlier one has already occurred. |
| InventoryView.EarlierCategoryOccursFirst | app/dashboard/inventory/page.tsx:58-61 | For one pair of listed categories and one occurrence of the later one, an earlier product has the earlier category. |
| InventoryView.StockFilterMeaning | app/dashboard/inventory/page.tsx:68-72 | "low", "out" and "in" select the low-stock, out-of-stock and in-stock products, and "all" selects every product. Every product is either "in" or "low", never both. |
| InventoryView.FilteredExactly | app/dashboard/inventory/page.tsx:65-74 | The filtered list is exactly the products whose lower-cased name contains the lower-cased query and that match the category and stock filters. It keeps store order. |
| InventoryView.NoFilterKeepsAll | app/dashboard/inventory/page.tsx:44-46 | With the initial filters (empty search, "all", "all"), every product is listed. |
| InventoryView.ComparisonAntisymmetric | app/dashboard/inventory/page.tsx:77-92 | Every sort key's comparison is antisymmetric. An unknown key compares everything as equal. |
| InventoryView.ComparisonTransitive | app/dashboard/inventory/page.tsx:77-92 | Every sort key's comparison is transitive. |
| InventoryView.ProductOrderIsTotalPreorder | app/dashboard/inventory/page.tsx:93 | Each key, in either direction, is a total preorder, so the sort is well defined. |
| InventoryView.FilteredProductsSortedPermutation | app/dashboard/inventory/page.tsx:64-97 | The listed products are a permutation of the filtered ones, and each adjacent or distant pair is in the chosen order. Names, quantities and prices sort ascending, "updated" puts the newest first, and `desc` reverses either. |
| InventoryView.FilteredProductsStable | app/dashboard/inventory/page.tsx:77-97 | The sort is stable, as `Array.prototype.sort` is: products that rank level under the chosen key appear in the same relative order as in the filtered list, in either direction. With the permutation and order above this fixes the listing completely. |
| InventoryView.QuantitySortPutsSmallestFirst | app/dashboard/inventory/page.tsx:83-84 | By quantity ascending, the first row has the smallest quantity in the store. |
| InventoryView.TotalValueBounds | app/dashboard/inventory/page.tsx:100 | With no negative quantities or prices, each product's stock value lies between zero and the total stock value. |
| InventoryView.NonNegativeWorth | app/dashboard/inventory/page.tsx:100 | A product with non-negative quantity and price is worth at least zero. |
| InventoryView.Toggled | app/dashboard/inventory/page.tsx:117-124 | Clicking a header sorts by that column. The same column flips the order, and another column starts ascending. |
| InventoryView.ToggleTwiceRestores | app/dashboard/inventory/page.tsx:117-124 | Clicking the current column twice restores the sort. |
| InventoryView.SortControl.constructor | app/dashboard/inventory/page.tsx:47-48 | The page starts sorted by name, ascending. |
| InventoryView.SortControl.ToggleSort | app/dashboard/inventory/page.tsx:117-124 | The sort state becomes `Toggled` of the old state. |
| SalesView.FilteredSalesExactly | app/dashboard/sales/page.tsx:42-71 | The listed sales are exactly those that pass the date, status and search tests, in store order. |
| SalesView.StatusFilterMeaning | app/dashboard/sales/page.tsx:62 | "all" keeps every sale. "pending", "approved" and "disputed" each keep exactly the sales in that status. |
| SalesView.EmptySearchMatchesAll | app/dashboard/sales/page.tsx:65-67 | The empty query matches every sale, with or without line items. |
| SalesView.ItemNameMatches | app/dashboard/sales/page.tsx:67 | A sale matches when any one of its line items' product names contains the query. |
| SalesView.DateWindowsNest | app/dashboard/sales/page.tsx:43-59 | A sale in the "today" window is in the "week" window, a sale in "week" is in "month", and a sale in "month" is in "all". |
| SalesView.DateFiltersNest | app/dashboard/sales/page.tsx:42-71 | With the same query and status, the "today" list is a subsequence of the "week" list, "week" of "month", and "month" of "all". |
| SalesView.TodayWindowIsToday | app/dashboard/sales/page.tsx:54-77 | A sale made today passes the "today" window. A sale that passes it and is not in the future was made today. |
| SalesView.TodayTotalIncludesDisputed | app/dashboard/sales/page.tsx:74-79 | Today's total also counts disputed sales. It is the non-disputed total plus the disputed total of the day. |
| SalesView.StatsBounds | app/dashboard/sales/page.tsx:74-81 | The pending count covers all time, so it is at least the number pending today. The approved count covers today only, and today's sales are at most all sales. |
| SalesView.DisputeClosesActions | app/dashboard/sales/page.tsx:306-320 | After a dispute, no sale with that id offers the approve or dispute buttons. From this page a sale is disputed at most once and never after approval. |
| SalesView.ApproveClosesActions | app/dashboard/sales/page.tsx:306-320 | After an approval, no sale with that id offers either button. |
| Reconciliation.MethodTotalMeaning | components/sales/reconciliation-panel.tsx:22-40 | A method's takings are the summed amounts of the sales that were made today, are approved, and were paid that way. |
| Reconciliation.MethodTotalAppend | components/sales/reconciliation-panel.tsx:30-40 | One more sale adds its amount to a method's takings exactly when it was made today, is approved and used that method. Otherwise the takings are unchanged. |
| Reconciliation.IgnoredSaleLeavesExpected | components/sales/reconciliation-panel.tsx:30-42 | A sale that is not from today, not approved, or paid some other way (credit) leaves the total expected unchanged. |
| Reconciliation.ApprovedCashSaleIsExpected | components/sales/reconciliation-panel.tsx:30-42 | An approved cash sale from today raises the expected cash and the total expected by its amount. |
| Reconciliation.Difference | components/sales/reconciliation-panel.tsx:43-44 | Cash that does not parse counts as 0, so the difference is minus the expected cash. Otherwise the difference plus the expected cash is the amount counted. |
| Reconciliation.OutcomeOf | components/sales/reconciliation-panel.tsx:45-156 | The count is balanced exactly when the difference is strictly between -1 and 1. It is over when the difference is at least 1 and short when it is at most -1. The amount shown is the size of the difference. |
| Reconciliation.ShownOutcome | components/sales/reconciliation-panel.tsx:134 | The result box is shown exactly when the cash field is non-empty. |
| Reconciliation.ExactCashBalances | components/sales/reconciliation-panel.tsx:43-147 | Counting exactly the expected cash balances. Counting one unit more is "Over by" 1. |
| Reconciliation.UnparsedCashIsShort | components/sales/reconciliation-panel.tsx:43-147 | When cash is expected, a cash field that does not parse reports the whole expected cash as short. |
| Reconciliation.MethodCountCoversExpected | components/sales/reconciliation-panel.tsx:77-97 | The "n sales" count of a method includes pending and disputed sales. So it is at least the number of sales behind that method's takings. |
| Reconciliation.PendingSaleWarnsButIsNotExpected | components/sales/reconciliation-panel.tsx:174-180 | A pending sale from today raises the pending warning and adds nothing to the total expected. |
| ReportsView.MissingProductEarnsNothing | app/dashboard/reports/page.tsx:51-57 | A line item whose product is no longer in the store adds nothing to the profit. |
| ReportsView.DayPointFor | app/dashboard/reports/page.tsx:61 | A day's profit bar is never negative, because the day's profit is clamped at zero. |
| ReportsView.DayPointOfDaySales | app/dashboard/reports/page.tsx:41-61 | A day's sales bar is the summed amounts of that day's non-disputed sales. Its profit bar is the larger of 0 and their profit at the current cost prices. |
| ReportsView.DailySalesData | app/dashboard/reports/page.tsx:31-65 | There are seven bars, oldest first. Bar k is the bar of the calendar day 6 - k days before today. |
| ReportsView.DayBar | app/dashboard/reports/page.tsx:37-61 | One pass of the loop builds the bar of its day. |
| ReportsView.DayLabels | app/dashboard/reports/page.tsx:32-39 | Day 0 of the clock, 1 January 1970, is labelled "Thu", and the labels repeat every seven days. |
| ReportsView.DayPointCountsThatDay | app/dashboard/reports/page.tsx:41-46 | A day's bar counts a sale exactly when it was made that day and is not disputed. Its total is the sum of those sales. |
| ReportsView.CategoryData | app/dashboard/reports/page.tsx:67-82 | The in-place fold over the products computes the category fold function. |
| ReportsView.ValueInCategoryAppend | app/dashboard/reports/page.tsx:72-76 | One more product adds its stock value to its own category and to no other. |
| ReportsView.NoValueOutsideCategories | app/dashboard/reports/page.tsx:67-82 | A category that no product has holds no value. |
| ReportsView.CategoryTotalsNames | app/dashboard/reports/page.tsx:70-81 | There is one entry per distinct category, in order of first appearance. |
| ReportsView.AddToTotalsNames | app/dashboard/reports/page.tsx:72-77 | One fold step adds no entry for a known category and appends one for a new category. |
| ReportsView.AddToTotalsEntry | app/dashboard/reports/page.tsx:72-77 | When names are distinct, one fold step grows only the product's own category entry, by its stock value. A new category gets a fresh last entry holding exactly that value. |
| ReportsView.CategoryTotalsValues | app/dashboard/reports/page.tsx:70-81 | Each entry holds exactly the stock value of its category. |
| ReportsView.AddToTotalsSum | app/dashboard/reports/page.tsx:72-77 | One fold step adds the product's stock value to the sum of the entries. |
| ReportsView.CategoryTotalsSum | app/dashboard/reports/page.tsx:67-82 | The entries add up to the inventory's total value. |
| ReportsView.RepPerformance | app/dashboard/reports/page.tsx:84-90 | There is one bar per rep, in the same order. Each bar holds the first space-separated word of the name, the rep's stored total and the fixed target 300000. |
| ReportsView.AvgOrderValue | app/dashboard/reports/page.tsx:107 | The average is 0 without sales. Otherwise it times the number of sales is the total. It is non-negative when the total is. |
| ReportsView.MoreSalesSameTotalLowersAverage | app/dashboard/reports/page.tsx:107 | One more sale that adds nothing to a positive total lowers the average. |
| ReportsView.TotalProfitSnoc | app/dashboard/reports/page.tsx:93-106 | One more sale leaves the total profit alone when it is disputed. Otherwise the total grows by the sale's item margins at current cost prices. |
| ReportsView.DisputedSaleDilutesAverage | app/dashboard/reports/page.tsx:92-107 | A disputed sale leaves the total unchanged. Because the divisor counts all sales, it lowers a positive average. |
| ReportsView.SalesChange | app/dashboard/reports/page.tsx:124 | The change is 0 when last week had no sales. Otherwise its sign is the sign of the change, and it times last week's total is 100 times the difference. |
| ReportsView.WeeksDisjoint | app/dashboard/reports/page.tsx:110-122 | No sale counts in both this week and last week. |
| ReportsView.WeeksSplitFortnight | app/dashboard/reports/page.tsx:110-122 | This week's total plus last week's total is the total of the non-disputed sales of the last fourteen days. |
| RepDashboard.MySalesExactly | app/rep/page.tsx:16 | With nobody signed in there are no sales. Otherwise the list holds exactly the sales carrying the rep's id, in store order. |
| RepDashboard.MyTodaySalesExactly | app/rep/page.tsx:18-22 | Today's list holds exactly the rep's own sales made today. |
| RepDashboard.TodayTotalSnoc | app/rep/page.tsx:16-24 | One more sale raises today's own takings by its amount, whatever its status, exactly when it carries the rep's id and is from today. Any other sale leaves them unchanged. |
| RepDashboard.PendingAndApprovedWithinToday | app/rep/page.tsx:24-26 | No sale is both pending and approved, so the two counts together are at most the number of today's sales. |
| RepDashboard.LowStockAlertList | app/rep/page.tsx:28-207 | The alert card shows `slice(0, 5)` of the low-stock products: exactly five when more than five are low, all of them otherwise, and they are the first products at or below their threshold, in order. |
| RepRecordSale.InitialRows | app/rep/record-sale/page.tsx:35-37 | The page starts with one blank row of quantity 1. That list is well formed: at least one row, distinct row ids, no product on two rows, and every quantity at least 1. |
| RepRecordSale.AddItemKeepsWellformed | app/rep/record-sale/page.tsx:52-57 | Adding a row with a fresh id keeps the list well formed, keeps the earlier rows as they were, and leaves the total unchanged. |
| RepRecordSale.RemoveItemExactly | app/rep/record-sale/page.tsx:59-63 | With distinct ids, removing drops exactly the row with that id. Nothing changes when no row has the id or only one row is left. |
| RepRecordSale.RemoveAtKeepsWellformed | app/rep/record-sale/page.tsx:59-63 | Dropping one of two or more rows keeps the list well formed. |
| RepRecordSale.RemoveAtTotal | app/rep/record-sale/page.tsx:61-91 | Dropping a row lowers the total by that row's line total. |
| RepRecordSale.RemoveItemKeepsWellformed | app/rep/record-sale/page.tsx:59-63 | Removing never empties a well-formed list, and it drops at most one row. |
| RepRecordSale.RemoveItemWithSharedIdEmpties | app/rep/record-sale/page.tsx:59-63 | The guard counts rows, not ids. Two rows that share an id are both removed, and the list becomes empty. |
| RepRecordSale.UpdateItemMeaning | app/rep/record-sale/page.tsx:65-82 | An unknown product changes nothing. A known product sets each row with the id to its id, name, selling price and stock, keeping the row's quantity. Every other row is unchanged. |
| RepRecordSale.PickingKeepsQuantityAboveStock | app/rep/record-sale/page.tsx:65-82 | Choosing a product whose stock is below the row's quantity keeps that quantity, which is then above the row's maximum. |
| RepRecordSale.UpdateQuantityMeaning | app/rep/record-sale/page.tsx:84-89 | The change applies exactly when the first row with the id allows 1 <= q <= its maximum. Then every row with the id takes q and nothing else changes. Otherwise the list is unchanged. |
| RepRecordSale.UpdateQuantityWithinStock | app/rep/record-sale/page.tsx:84-89 | With distinct ids, a quantity that the update changes lies between 1 and its row's maximum. |
| RepRecordSale.UpdateQuantityKeepsWellformed | app/rep/record-sale/page.tsx:84-89 | Updating a quantity keeps the list well formed. |
| RepRecordSale.SelectedIdsMeaning | app/rep/record-sale/page.tsx:127 | A product id counts as selected exactly when some other row holds it. |
| RepRecordSale.AvailableProductsExactly | app/rep/record-sale/page.tsx:126-131 | A product is offered to a row exactly when it is in the store, in stock, named like the query ignoring case, and on no other row. |
| RepRecordSale.PickingOfferedKeepsWellformed | app/rep/record-sale/page.tsx:65-82 | Choosing a product from a row's offered list keeps the list well formed, so rows never share a product. |
| RepRecordSale.PickingUnusedKeepsWellformed | app/rep/record-sale/page.tsx:68-80 | Setting the rows with an id to a product that no other row holds keeps the list well formed. |
| RepRecordSale.PayloadMeaning | app/rep/record-sale/page.tsx:100-113 | The submitted sale is pending and attributed to the signed-in rep, with the chosen payment method. It has one line item per row, each with the row's product, name, quantity, price and quantity x price. Its amount is the sum of the line totals. |
| RepRecordSale.EveryRowDeducted | app/rep/record-sale/page.tsx:93-113 | No two rows share a product, so recording the sale takes every row's quantity off its product's stock. |
| RepRecordSale.RecordSalePage.constructor | app/rep/record-sale/page.tsx:31-37 | The page starts with the initial rows, no payment method and an empty search. |
| RepRecordSale.RecordSalePage.AddItem | app/rep/record-sale/page.tsx:52-57 | Appends a blank row and keeps the list well formed when the id is fresh. |
| RepRecordSale.RecordSalePage.RemoveItem | app/rep/record-sale/page.tsx:59-63 | Applies the remove rule and keeps the list well formed. |
| RepRecordSale.RecordSalePage.UpdateItem | app/rep/record-sale/page.tsx:65-82 | Applies the product choice. An offered product keeps the list well formed. |
| RepRecordSale.RecordSalePage.UpdateQuantity | app/rep/record-sale/page.tsx:84-89 | Applies the quantity rule and keeps the list well formed. |
| RepRecordSale.RecordSalePage.HandleSubmit | app/rep/record-sale/page.tsx:93-123 | With no payment method, or any row without a product, nothing changes. Otherwise the store records the payload sale for the signed-in rep, and the form returns to its initial rows with no payment method. |
| OwnerRecordSale.RemoveItemNeverEmpties | components/dashboard/record-sale-form.tsx:38-42 | With distinct ids, removing never empties the list and keeps every row with another id. When two or more rows were there, no row with the id is left. |
| OwnerRecordSale.UpdateQuantityUnbounded | components/dashboard/record-sale-form.tsx:55-57 | Any quantity is taken, with no lower bound and no check against the stock. Every row with the id takes it, and the other rows are unchanged. |
| OwnerRecordSale.UpdateItemMeaning | components/dashboard/record-sale-form.tsx:44-53 | An unknown product changes nothing. A known product sets each row with the id to its id, name and selling price, keeping the row's quantity. Every other row is unchanged. |
| OwnerRecordSale.TotalAfterQuantityChange | components/dashboard/record-sale-form.tsx:55-59 | With distinct ids, changing a row's quantity changes the total by the difference times the row's price. |
| OwnerRecordSale.OfferedProducts | components/dashboard/record-sale-form.tsx:149 | The picker offers exactly the products in stock, including ones already chosen on another row. |
| OwnerRecordSale.RepChoices | components/dashboard/record-sale-form.tsx:111-118 | The rep picker lists "owner" first. After it come exactly the ids of the active reps. |
| OwnerRecordSale.PayloadMeaning | components/dashboard/record-sale-form.tsx:68-83 | The owner's sale is approved, with one line item per row and the sum of the line totals as its amount. It goes to the first rep with the chosen id, and to "owner" / "Owner" when no rep has that id. |
| OwnerRecordSale.OwnerSaleCreditsNoRep | components/dashboard/record-sale-form.tsx:68-83 | A sale that has no matching rep and goes to "owner" moves no rep's counters. |
| OwnerRecordSale.SameProductTwiceDeductsOnce | components/dashboard/record-sale-form.tsx:44-83 | Two rows for the same product pass the form's guard. The store then takes only the first row's quantity off the stock. |
| OwnerRecordSale.RecordSaleForm.constructor | components/dashboard/record-sale-form.tsx:29-32 | The form starts with one blank row, no payment method and no rep chosen. |
| OwnerRecordSale.RecordSaleForm.AddItem | components/dashboard/record-sale-form.tsx:34-36 | Appends a blank row with the given id. |
| OwnerRecordSale.RecordSaleForm.RemoveItem | components/dashboard/record-sale-form.tsx:38-42 | Applies the remove rule. |
| OwnerRecordSale.RecordSaleForm.UpdateItem | components/dashboard/record-sale-form.tsx:44-53 | Applies the product choice. |
| OwnerRecordSale.RecordSaleForm.UpdateQuantity | components/dashboard/record-sale-form.tsx:55-57 | Sets the quantity to the parsed number, or to 1 when the field does not parse or parses to 0. |
| OwnerRecordSale.RecordSaleForm.HandleSubmit | components/dashboard/record-sale-form.tsx:61-87 | With no payment method, or any row without a product, nothing changes and the form stays open. Otherwise the store records the payload sale and the form closes. |
| RepAddStock.FilteredProducts | app/rep/add-stock/page.tsx:40 | The listed products are exactly those whose name contains the query, ignoring case, in store order. |
| RepAddStock.SelectedProduct | app/rep/add-stock/page.tsx:42 | The product is found exactly when the store has one with the chosen id, and it is that product. |
| RepAddStock.Preview | app/rep/add-stock/page.tsx:183-192 | The new level is shown exactly when a product is chosen and the quantity parses to a positive integer. It is the product's stock plus the quantity. |
| RepAddStock.NoSignCheck | app/rep/add-stock/page.tsx:44-50 | The guard does not check the sign. A negative quantity reaches the store's add-stock action and lowers the stock. |
| RepAddStock.PreviewIsNewLevel | app/rep/add-stock/page.tsx:42-50 | A previewed level is the level that the first product with the id reaches on submit. |
| RepAddStock.Page.constructor | app/rep/add-stock/page.tsx:19-23 | The search, product, quantity and note all start empty. |
| RepAddStock.Page.HandleSubmit | app/rep/add-stock/page.tsx:44-57 | Without a product or a quantity, nothing changes and the outcome is `Ignored`. Otherwise the product, quantity and note are cleared. With an integer quantity, the store restocks with it, and with the note only when the note is non-empty. A quantity that parses to NaN gives `RestockedWithNaN`, with only the frame of a NaN restock promised. |
| AddStockForm.Preview | components/inventory/add-stock-form.tsx:71-78 | The new level is shown exactly when the quantity is non-empty and parses to a positive integer. It is the current stock plus the quantity, so it is above the current stock. |
| AddStockForm.PreviewAndSubmits | components/inventory/add-stock-form.tsx:25-78 | A shown preview means the form submits. The form submits without a preview exactly when the quantity is non-empty and parses to NaN. |
| AddStockForm.UnparsedSubmitsWithoutPreview | components/inventory/add-stock-form.tsx:25-78 | ".5e1" submits, with no preview shown. |
| AddStockForm.EnabledIsNotEnough | components/inventory/add-stock-form.tsx:25-84 | The button is enabled whenever the form would submit. "0" also enables it, and is then ignored. |
| AddStockForm.PreviewIsNewLevel | components/inventory/add-stock-form.tsx:29-75 | When the product shown is the store's record, submitting raises that record to exactly the previewed level. |
| AddStockForm.Form.constructor | components/inventory/add-stock-form.tsx:19-20 | Quantity and note start empty. |
| AddStockForm.Form.HandleSubmit | components/inventory/add-stock-form.tsx:23-32 | An empty quantity, or one that parses to at most 0, is `Ignored` and changes nothing. A positive integer gives `Restocked`: one add-stock call for this product, with the note only when it is non-empty, and the form closes. A quantity that parses to NaN gives `RestockedWithNaN`, with only the frame of a NaN restock promised. |
| UsersPage.FilteredReps | app/dashboard/users/page.tsx:52-56 | The listed reps are exactly those whose name or email contains the query, ignoring case, in store order. |
| UsersPage.EmptySearchListsAll | app/dashboard/users/page.tsx:52-56 | An empty search lists every rep. |
| UsersPage.SanitizePinShape | app/dashboard/users/page.tsx:267 | The PIN holds at most four characters, all digits. It is a prefix of the input's digits taken in order (the filter of the input by "is a digit"), and all of them when fewer than four were typed. |
| UsersPage.SanitizePinIdempotent | app/dashboard/users/page.tsx:267 | Sanitising a sanitised PIN changes nothing. |
| UsersPage.SaveEditMeaning | app/dashboard/users/page.tsx:58-61 | Saving an edit sets the rep's name, email, phone, PIN and active flag from the form. The rep keeps its id, counters and creation time, and other reps are untouched. |
| UsersPage.EditUnchangedIsNoOp | app/dashboard/users/page.tsx:58-80 | Opening a rep for editing and saving without changes leaves the store as it was. |
| UsersPage.ToggleFlipsOnlyActive | app/dashboard/users/page.tsx:166 | The toggle flips the active flag of the reps with that id and changes nothing else. |
| UsersPage.ToggleTwiceRestores | app/dashboard/users/page.tsx:166 | Toggling twice from the current record restores the store. |
| UsersPage.Page.constructor | app/dashboard/users/page.tsx:38-50 | The search is empty, the panel is closed, no rep is being edited or deleted, and the form is cleared with active on. |
| UsersPage.Page.SetPin | app/dashboard/users/page.tsx:267 | The PIN field keeps only what the sanitiser lets through, at most four digits. The other fields are unchanged. |
| UsersPage.Page.HandleSubmit | app/dashboard/users/page.tsx:58-68 | When editing, the store updates that rep from the form. Otherwise the store adds a rep from the form. Either way the panel closes and the form is cleared. |
| UsersPage.Page.HandleEdit | app/dashboard/users/page.tsx:70-80 | The form is filled from the rep, the rep becomes the one being edited, and the panel opens. |
| UsersPage.Page.HandleClosePanel | app/dashboard/users/page.tsx:87-91 | The panel closes, no rep is being edited, and the form is cleared. |
| UsersPage.Page.ToggleActive | app/dashboard/users/page.tsx:166 | The store applies the toggle patch to the rep. |
| UsersPage.Page.HandleDelete | app/dashboard/users/page.tsx:82-85 | The store deletes the rep and the confirmation closes. Nothing else on the page changes. |
| AuthValidation.IsEmailMatchesPattern | components/auth/register-form.tsx:47 | The direct check accepts exactly the strings that the e-mail pattern accepts. The pattern reads as three non-empty runs of characters that are neither white space nor "@", joined by "@" and ".". |
| AuthValidation.AcceptedMatches | components/auth/register-form.tsx:47 | Every string the direct check accepts splits as the pattern requires. |
| AuthValidation.MatchAccepted | components/auth/register-form.tsx:47 | Every string the pattern accepts passes the direct check. |
| AuthValidation.PlainSplit | components/auth/register-form.tsx:47 | In a string the pattern accepts, the whole part after the "@" is free of white space and "@". |
| AuthValidation.EmptyIsNotEmail | components/auth/register-form.tsx:45-49 | The empty string never matches, so an empty field always shows an error. |
| AuthValidation.PlainAddressMatches | components/auth/login-form.tsx:39 | "ada@shop.ng" matches the pattern. |
| AuthValidation.SecondAtDoesNotMatch | components/auth/forgot-password-form.tsx:27 | "a@b@c.d" does not match the pattern. |
| RegisterForm.FullNameError | components/auth/register-form.tsx:42 | The full name is reported exactly when it is empty, as "required". |
| RegisterForm.ShopNameError | components/auth/register-form.tsx:43 | The shop name is reported exactly when it is empty, as "required". |
| RegisterForm.EmailError | components/auth/register-form.tsx:45-49 | The e-mail is reported exactly when it does not match the pattern: as "required" when empty, as "invalid" otherwise. |
| RegisterForm.PasswordError | components/auth/register-form.tsx:51-55 | The password is reported exactly when it is shorter than 8 characters: as "required" when empty, as the minimum-length message otherwise. |
| RegisterForm.ConfirmPasswordError | components/auth/register-form.tsx:57-61 | The confirmation is reported exactly when it is empty or differs from the password: as "required" when empty, as the must-match message otherwise. |
| RegisterForm.AgreeTermsError | components/auth/register-form.tsx:63 | The terms are reported exactly when they are not accepted, as "required". |
| RegisterForm.ErrorKeys | components/auth/register-form.tsx:39-64 | No field other than the six checked ones is ever reported. |
| RegisterForm.NoErrorsIffAcceptable | components/auth/register-form.tsx:39-67 | There are no errors exactly when every field passes. |
| RegisterForm.Form.constructor | components/auth/register-form.tsx:28-37 | All text fields start empty, the terms unticked, and no errors. |
| RegisterForm.Form.ValidateForm | components/auth/register-form.tsx:39-67 | The recorded errors are those of the six checks. The result is true exactly when every field passes. The form data is unchanged. |
| LoginForm.ErrorsMeaning | components/auth/login-form.tsx:34-46 | Only the e-mail and the password can be reported. The e-mail is reported exactly when it does not match the pattern, as "required" when empty and "invalid" otherwise. The password is reported exactly when it is empty, as "required". |
| LoginForm.NoErrorsIffValid | components/auth/login-form.tsx:34-48 | There are no errors exactly when the e-mail matches the pattern and the password is non-empty. |
| LoginForm.Form.constructor | components/auth/login-form.tsx:27-32 | The fields start empty, "remember me" off, and no errors. |
| LoginForm.Form.ValidateForm | components/auth/login-form.tsx:34-48 | The recorded errors are those of the two checks. The result is true exactly when the e-mail matches the pattern and the password is non-empty. |
| ForgotPasswordForm.Form.constructor | components/auth/forgot-password-form.tsx:19-20 | The e-mail and the error line start empty. |
| ForgotPasswordForm.Form.ValidateForm | components/auth/forgot-password-form.tsx:22-33 | The result is true exactly when the e-mail matches the pattern, and the error line is then cleared. An empty e-mail shows "required", and a malformed one shows "invalid". |

### Definitions and the rows that state them

The table above lists the members whose contracts state something. A function or predicate that only computes a value has no row of its own. Each one is listed here with the rows whose contracts state its meaning. Those rows cite its source lines.

- `AddStockForm.Submits`: AddStockForm.PreviewAndSubmits, AddStockForm.UnparsedSubmitsWithoutPreview, AddStockForm.EnabledIsNotEnough, AddStockForm.Form.HandleSubmit.
- `AddStockForm.SubmitDisabled`: AddStockForm.EnabledIsNotEnough.
- `AddStockForm.UnparsedRestockFrame`: RepAddStock.Page.HandleSubmit, AddStockForm.Form.HandleSubmit.
- `DashboardStats.TotalProducts`: DashboardStats.StockCardsPartition.
- `DashboardStats.SinceMidnight`: DashboardStats.DisputedSaleCountsAsTransaction, DashboardStats.ApprovedCountIsAllTime.
- `DashboardStats.TodaySalesTotal`: DashboardStats.TodayWithinRevenue, DashboardStats.DisputedSaleCountsAsTransaction.
- `DashboardStats.TotalRevenue`: DashboardStats.TodayWithinRevenue, DashboardStats.DisputedSaleCountsAsTransaction.
- `DashboardStats.TodayTransactions`: DashboardStats.DisputedSaleCountsAsTransaction, DashboardStats.ApprovedCountIsAllTime.
- `DashboardStats.ApprovedCount`: DashboardStats.ApprovedCountIsAllTime.
- `Domain.DayOf`: Domain.Midnight, Domain.SameDayIsTodayWindow, Domain.DayOfShift, ReportsView.DailySalesData, ReportsView.DayPointCountsThatDay.
- `Domain.PatchProduct`: StoreProps.UpdateProductFrame, Domain.EmptyPatchesChangeNothing.
- `Domain.PatchSalesRep`: StoreProps.UpdateSalesRepFrame, Domain.EmptyPatchesChangeNothing.
- `Domain.NoProductChanges`: Domain.EmptyPatchesChangeNothing.
- `Domain.NoSalesRepChanges`: Domain.EmptyPatchesChangeNothing.
- `Domain.IsLowStock`: Domain.LowStockProducts, InventoryView.StockFilterMeaning.
- `Domain.IsOutOfStock`: DashboardStats.LowStockChange, InventoryView.StockFilterMeaning.
- `Domain.IsInStock`: InventoryView.StockFilterMeaning.
- `Domain.LowStockCount`: Domain.LowAndInStockPartition, Domain.OutOfStockIsLowStock, DashboardStats.LowStockChange, DashboardStats.StockCardsPartition, DashboardStats.OutOfStockNoteWithinLowStock.
- `Domain.InStockCount`: Domain.LowAndInStockPartition, DashboardStats.StockCardsPartition.
- `Domain.OutOfStockCount`: Domain.OutOfStockIsLowStock, DashboardStats.OutOfStockNoteWithinLowStock.
- `Domain.NotDisputed`: SalesView.TodayTotalIncludesDisputed.
- `Domain.IsPending`: SalesView.StatsBounds.
- `Domain.TotalAmount`: SalesView.TodayTotalIncludesDisputed, Reconciliation.MethodTotalMeaning, ReportsView.DayPointOfDaySales, ReportsView.DayPointCountsThatDay, ReportsView.WeeksSplitFortnight.
- `Domain.SameDay`: SalesView.TodayWindowIsToday, Reconciliation.MethodTotalMeaning, Reconciliation.MethodTotalAppend, Reconciliation.IgnoredSaleLeavesExpected, Reconciliation.ApprovedCashSaleIsExpected, and 3 more.
- `Domain.TodaySales`: SalesView.TodayTotalIncludesDisputed, SalesView.StatsBounds, Reconciliation.MethodCountCoversExpected.
- `AuthValidation.AllPlain`: AuthValidation.PlainSplit.
- `AuthValidation.SplitsAt`: AuthValidation.MatchAccepted, AuthValidation.PlainSplit.
- `AuthValidation.MatchesPattern`: AuthValidation.IsEmailMatchesPattern, AuthValidation.AcceptedMatches, AuthValidation.EmptyIsNotEmail, AuthValidation.PlainAddressMatches, AuthValidation.SecondAtDoesNotMatch, and 5 more.
- `AuthValidation.IsEmail`: AuthValidation.IsEmailMatchesPattern, AuthValidation.AcceptedMatches, AuthValidation.MatchAccepted.
- `InventoryView.FirstAppearanceOrder`: InventoryView.CategoriesInFirstAppearanceOrder.
- `InventoryView.MatchesStock`: InventoryView.StockFilterMeaning, InventoryView.FilteredExactly.
- `InventoryView.Matches`: InventoryView.FilteredExactly.
- `InventoryView.Filtered`: InventoryView.FilteredExactly, InventoryView.NoFilterKeepsAll, InventoryView.FilteredProductsSortedPermutation.
- `InventoryView.Comparison`: InventoryView.ComparisonAntisymmetric, InventoryView.ComparisonTransitive, InventoryView.FilteredProductsSortedPermutation.
- `InventoryView.Directed`: InventoryView.FilteredProductsSortedPermutation.
- `InventoryView.ProductOrder`: InventoryView.ProductOrderIsTotalPreorder.
- `InventoryView.FilteredProducts`: InventoryView.FilteredProductsSortedPermutation, InventoryView.FilteredProductsStable, InventoryView.QuantitySortPutsSmallestFirst.
- `InventoryView.SameRank`: InventoryView.FilteredProductsStable.
- `InventoryView.StockValue`: InventoryView.TotalValueBounds, InventoryView.NonNegativeWorth, ReportsView.ValueInCategoryAppend, ReportsView.AddToTotalsEntry, ReportsView.AddToTotalsSum.
- `InventoryView.TotalValue`: InventoryView.TotalValueBounds, ReportsView.CategoryTotalsSum.
- `InventoryView.SortControl.State`: InventoryView.SortControl.constructor, InventoryView.SortControl.ToggleSort.
- `LoginForm.Errors`: LoginForm.ErrorsMeaning, LoginForm.NoErrorsIffValid, LoginForm.Form.ValidateForm.
- `LowStockCarousel.LowStockItems`: LowStockCarousel.CurrentItemIsLowStock, LowStockCarousel.StaleIndexAfterRestock.
- `LowStockCarousel.Rotate`: LowStockCarousel.FullRotation, LowStockCarousel.RotationCycles.
- `LowStockCarousel.CurrentItemAsWritten`: LowStockCarousel.CurrentItem, LowStockCarousel.StaleIndexAfterRestock.
- `LowStockCarousel.IsCritical`: LowStockCarousel.StaleIndexAfterRestock, LowStockCarousel.IsCriticalAsWritten.
- `OwnerRecordSale.InitialRows`: OwnerRecordSale.RecordSaleForm.constructor.
- `OwnerRecordSale.DistinctIds`: OwnerRecordSale.RemoveItemNeverEmpties, OwnerRecordSale.TotalAfterQuantityChange.
- `OwnerRecordSale.AfterAddItem`: OwnerRecordSale.RecordSaleForm.AddItem.
- `OwnerRecordSale.AfterRemoveItem`: OwnerRecordSale.RemoveItemNeverEmpties, OwnerRecordSale.RecordSaleForm.RemoveItem.
- `OwnerRecordSale.AfterUpdateItem`: OwnerRecordSale.UpdateItemMeaning, OwnerRecordSale.RecordSaleForm.UpdateItem.
- `OwnerRecordSale.AfterUpdateQuantity`: OwnerRecordSale.UpdateQuantityUnbounded, OwnerRecordSale.TotalAfterQuantityChange, OwnerRecordSale.RecordSaleForm.UpdateQuantity.
- `OwnerRecordSale.Total`: OwnerRecordSale.TotalAfterQuantityChange.
- `OwnerRecordSale.CanSubmit`: OwnerRecordSale.RecordSaleForm.HandleSubmit.
- `OwnerRecordSale.ItemTotal`: OwnerRecordSale.PayloadMeaning.
- `OwnerRecordSale.Payload`: OwnerRecordSale.PayloadMeaning, OwnerRecordSale.OwnerSaleCreditsNoRep, OwnerRecordSale.SameProductTwiceDeductsOnce, OwnerRecordSale.RecordSaleForm.HandleSubmit.
- `Reconciliation.Expected`: Reconciliation.MethodTotalMeaning, Reconciliation.MethodTotalAppend.
- `Reconciliation.ExpectedBy`: Reconciliation.MethodCountCoversExpected.
- `Reconciliation.MethodTotal`: Reconciliation.MethodTotalMeaning, Reconciliation.MethodTotalAppend.
- `Reconciliation.CashSales`: Reconciliation.ApprovedCashSaleIsExpected, Reconciliation.ExactCashBalances, Reconciliation.UnparsedCashIsShort.
- `Reconciliation.TotalExpected`: Reconciliation.IgnoredSaleLeavesExpected, Reconciliation.ApprovedCashSaleIsExpected, Reconciliation.PendingSaleWarnsButIsNotExpected.
- `Reconciliation.MethodCount`: Reconciliation.MethodCountCoversExpected.
- `Reconciliation.ShowPendingWarning`: Reconciliation.PendingSaleWarnsButIsNotExpected.
- `RegisterForm.Errors`: RegisterForm.FullNameError, RegisterForm.ShopNameError, RegisterForm.EmailError, RegisterForm.PasswordError, RegisterForm.ConfirmPasswordError, and 4 more.
- `RegisterForm.Acceptable`: RegisterForm.NoErrorsIffAcceptable, RegisterForm.Form.ValidateForm.
- `RepAddStock.CanSubmit`: RepAddStock.NoSignCheck, RepAddStock.Page.HandleSubmit.
- `RepDashboard.MySales`: RepDashboard.MySalesExactly.
- `RepDashboard.MyTodaySales`: RepDashboard.MyTodaySalesExactly, RepDashboard.PendingAndApprovedWithinToday.
- `RepDashboard.TodayTotal`: RepDashboard.TodayTotalSnoc.
- `RepDashboard.PendingCount`: RepDashboard.PendingAndApprovedWithinToday.
- `RepDashboard.ApprovedCount`: RepDashboard.PendingAndApprovedWithinToday.
- `RepRecordSale.BlankRow`: RepRecordSale.RemoveItemWithSharedIdEmpties.
- `RepRecordSale.RowId`: RepRecordSale.RemoveItemExactly, RepRecordSale.UpdateQuantityMeaning.
- `RepRecordSale.HasId`: RepRecordSale.PickingUnusedKeepsWellformed.
- `RepRecordSale.DistinctIds`: RepRecordSale.RemoveItemExactly, RepRecordSale.UpdateQuantityWithinStock.
- `RepRecordSale.Wellformed`: RepRecordSale.InitialRows, RepRecordSale.AddItemKeepsWellformed, RepRecordSale.RemoveAtKeepsWellformed, RepRecordSale.RemoveItemKeepsWellformed, RepRecordSale.UpdateQuantityKeepsWellformed, and 7 more.
- `RepRecordSale.AfterAddItem`: RepRecordSale.AddItemKeepsWellformed, RepRecordSale.RecordSalePage.AddItem.
- `RepRecordSale.AfterRemoveItem`: RepRecordSale.RemoveItemExactly, RepRecordSale.RemoveItemKeepsWellformed, RepRecordSale.RemoveItemWithSharedIdEmpties, RepRecordSale.RecordSalePage.RemoveItem.
- `RepRecordSale.Picked`: RepRecordSale.PickingUnusedKeepsWellformed.
- `RepRecordSale.AfterUpdateItem`: RepRecordSale.UpdateItemMeaning, RepRecordSale.PickingKeepsQuantityAboveStock, RepRecordSale.PickingOfferedKeepsWellformed, RepRecordSale.RecordSalePage.UpdateItem.
- `RepRecordSale.AfterUpdateQuantity`: RepRecordSale.UpdateQuantityMeaning, RepRecordSale.UpdateQuantityWithinStock, RepRecordSale.UpdateQuantityKeepsWellformed, RepRecordSale.RecordSalePage.UpdateQuantity.
- `RepRecordSale.LineTotal`: RepRecordSale.RemoveAtTotal.
- `RepRecordSale.Total`: RepRecordSale.AddItemKeepsWellformed, RepRecordSale.RemoveAtTotal.
- `RepRecordSale.SelectedIds`: RepRecordSale.SelectedIdsMeaning.
- `RepRecordSale.AvailableProducts`: RepRecordSale.AvailableProductsExactly.
- `RepRecordSale.Offered`: RepRecordSale.PickingOfferedKeepsWellformed, RepRecordSale.RecordSalePage.UpdateItem.
- `RepRecordSale.CanSubmit`: RepRecordSale.EveryRowDeducted, RepRecordSale.RecordSalePage.HandleSubmit.
- `RepRecordSale.ItemTotal`: RepRecordSale.PayloadMeaning.
- `RepRecordSale.Payload`: RepRecordSale.PayloadMeaning, RepRecordSale.EveryRowDeducted, RepRecordSale.RecordSalePage.HandleSubmit.
- `ReportsView.ItemProfit`: ReportsView.MissingProductEarnsNothing.
- `ReportsView.SaleProfit`: ReportsView.TotalProfitSnoc.
- `ReportsView.SalesProfit`: ReportsView.DayPointOfDaySales.
- `ReportsView.DaySales`: ReportsView.DayPointOfDaySales, ReportsView.DayPointCountsThatDay.
- `ReportsView.CategoryAmount`: ReportsView.AddToTotalsSum, ReportsView.CategoryTotalsSum.
- `ReportsView.AddToTotals`: ReportsView.AddToTotalsNames, ReportsView.AddToTotalsEntry, ReportsView.AddToTotalsSum.
- `ReportsView.CategoryTotals`: ReportsView.CategoryData, ReportsView.CategoryTotalsNames, ReportsView.CategoryTotalsValues, ReportsView.CategoryTotalsSum.
- `ReportsView.ValueInCategory`: ReportsView.ValueInCategoryAppend, ReportsView.NoValueOutsideCategories, ReportsView.CategoryTotalsValues.
- `ReportsView.TotalSales`: ReportsView.DisputedSaleDilutesAverage.
- `ReportsView.TotalProfit`: ReportsView.TotalProfitSnoc.
- `ReportsView.InThisWeek`: ReportsView.WeeksDisjoint.
- `ReportsView.InLastWeek`: ReportsView.WeeksDisjoint.
- `ReportsView.ThisWeekSales`: ReportsView.WeeksSplitFortnight.
- `ReportsView.LastWeekSales`: ReportsView.WeeksSplitFortnight.
- `ReportsView.InLastTwoWeeks`: ReportsView.WeeksSplitFortnight.
- `SalesView.MatchesDate`: SalesView.DateWindowsNest, SalesView.TodayWindowIsToday.
- `SalesView.MatchesStatus`: SalesView.StatusFilterMeaning.
- `SalesView.MatchesSearch`: SalesView.EmptySearchMatchesAll, SalesView.ItemNameMatches.
- `SalesView.SaleMatches`: SalesView.FilteredSalesExactly.
- `SalesView.FilteredSales`: SalesView.FilteredSalesExactly, SalesView.DateFiltersNest.
- `SalesView.TodayTotal`: SalesView.TodayTotalIncludesDisputed.
- `SalesView.PendingCount`: SalesView.StatsBounds.
- `SalesView.ApprovedToday`: SalesView.StatsBounds.
- `SalesView.ActionsOffered`: SalesView.DisputeClosesActions, SalesView.ApproveClosesActions.
- `Seqs.IsSubsequence`: StoreProps.DeleteProductExact, StoreProps.DeleteSalesRepExact, InventoryView.FilteredExactly, SalesView.FilteredSalesExactly, SalesView.DateFiltersNest, and 3 more.
- `Seqs.Filter`: SalesView.TodayTotalIncludesDisputed, Reconciliation.MethodTotalMeaning, Reconciliation.MethodCountCoversExpected, ReportsView.WeeksSplitFortnight, Text.DigitsOnly, UsersPage.SanitizePinShape.
- `Seqs.Count`: DashboardStats.LowStockChange, SalesView.StatsBounds.
- `Seqs.Sum`: SalesView.TodayTotalIncludesDisputed, Reconciliation.MethodTotalMeaning, ReportsView.DayPointOfDaySales, ReportsView.DayPointCountsThatDay, ReportsView.AddToTotalsSum, and 4 more.
- `Seqs.IndexOf`: RepRecordSale.RemoveItemExactly, RepRecordSale.UpdateQuantityMeaning, RepAddStock.PreviewIsNewLevel.
- `Seqs.MapWhere`: RepRecordSale.PickingUnusedKeepsWellformed.
- `Seqs.IsSuffix`: StoreProps.LogsOnlyGrow, StoreProps.AddStockLogsGrow, StoreProps.LogsOnlyGrowOverRun, StoreProps.ApproveSaleEffects.
- `Seqs.TotalPreorder`: StaffSummary.ByTodayDescIsTotalPreorder, InventoryView.ProductOrderIsTotalPreorder.
- `StaffSummary.CountsFor`: StaffSummary.RepTodaySalesAppend.
- `StaffSummary.RepTodaySales`: StaffSummary.RepStats, StaffSummary.RepTodaySalesAppend.
- `StaffSummary.ByTodayDesc`: StaffSummary.ByTodayDescIsTotalPreorder.
- `StaffSummary.TopPerformer`: StaffSummary.TopPerformerIsBest, StaffSummary.TopPerformerIsFirstOfTies, StaffSummary.AtMostOneTopBadge, StaffSummary.NoTakingsNoBadge.
- `StaffSummary.ShowsTopBadge`: StaffSummary.AtMostOneTopBadge, StaffSummary.NoTakingsNoBadge.
- `DomainStore.Store.State`: DomainStore.Store.constructor, DomainStore.Store.SetCurrentUser, DomainStore.Store.AddProduct, DomainStore.Store.UpdateProduct, DomainStore.Store.DeleteProduct, and 8 more.
- `StoreOps.Initial`: DomainStore.Store.constructor.
- `StoreOps.FindProduct`: StoreOps.FindProductPresent, StoreProps.AddStockOnKnownProduct, StoreProps.RecordSaleEffects, RepRecordSale.UpdateItemMeaning, RepRecordSale.PickingKeepsQuantityAboveStock, and 1 more.
- `StoreOps.FindSale`: StoreProps.DisputeSaleDebits, StoreProps.DisputeTwiceRestocksTwice.
- `StoreOps.FirstItemFor`: StoreProps.RecordSaleEffects, StoreProps.DisputeTwiceRestocksTwice.
- `StoreOps.HasProduct`: StoreOps.FindProductPresent, StoreProps.AddStockOnKnownProduct, StoreProps.AddStockOnUnknownProduct, ReportsView.MissingProductEarnsNothing, RepRecordSale.UpdateItemMeaning, and 4 more.
- `StoreOps.SaleProductsExist`: DomainStore.Store.RecordSale, StoreOps.SaleLogs, StoreProps.RecordSaleEffects, StoreProps.DuplicateItemsDeductOnce, StoreProps.SaleCanDriveStockNegative, and 9 more.
- `StoreOps.SaleFromDraft`: StoreProps.RecordSaleEffects.
- `StoreOps.Restocked`: LowStockCarousel.StaleIndexAfterRestock.
- `StoreOps.SetCurrentUser`: DomainStore.Store.SetCurrentUser, StoreProps.SetCurrentUserEffects.
- `StoreOps.AddProduct`: DomainStore.Store.AddProduct, StoreProps.AddProductAppends.
- `StoreOps.UpdateProduct`: DomainStore.Store.UpdateProduct, StoreProps.UpdateProductFrame.
- `StoreOps.DeleteProduct`: DomainStore.Store.DeleteProduct, StoreProps.DeleteProductExact.
- `StoreOps.AddStock`: DomainStore.Store.AddStock, StoreProps.AddStockOnKnownProduct, StoreProps.AddStockOnUnknownProduct, StoreProps.AddStockLogsGrow, RepAddStock.NoSignCheck, and 4 more.
- `StoreOps.RecordSale`: DomainStore.Store.RecordSale, StoreProps.RecordSaleEffects, StoreProps.DuplicateItemsDeductOnce, StoreProps.SaleCanDriveStockNegative, StoreProps.RecordSaleCredits, and 8 more.
- `StoreOps.ApproveSale`: DomainStore.Store.ApproveSale, StoreProps.ApproveSaleEffects, StoreProps.ApproveIgnoresStatus, SalesView.ApproveClosesActions.
- `StoreOps.DisputeSale`: DomainStore.Store.DisputeSale, StoreProps.DisputeSaleDebits, StoreProps.RecordThenDisputeRestores, StoreProps.RecordThenDisputeProducts, StoreProps.RecordThenDisputeReps, and 2 more.
- `StoreOps.AddActivity`: DomainStore.Store.AddActivity, StoreProps.AddActivityPrepends.
- `StoreOps.AddSalesRep`: DomainStore.Store.AddSalesRep, StoreProps.AddKeepsCounters, StoreProps.AddSalesRepStartsAtZero, UsersPage.Page.HandleSubmit.
- `StoreOps.UpdateSalesRep`: DomainStore.Store.UpdateSalesRep, StoreProps.UpdateKeepsCounters, StoreProps.UpdateSalesRepFrame, UsersPage.SaveEditMeaning, UsersPage.EditUnchangedIsNoOp, and 4 more.
- `StoreOps.DeleteSalesRep`: DomainStore.Store.DeleteSalesRep, StoreProps.DeleteKeepsCounters, StoreProps.DeleteSalesRepExact, UsersPage.Page.HandleDelete.
- `StoreOps.Completes`: StoreProps.CountersStayNonNegative, StoreProps.RepsUntouched, StoreProps.LogsOnlyGrow.
- `StoreOps.Apply`: StoreProps.CountersStayNonNegative, StoreProps.RepsUntouched, StoreProps.LogsOnlyGrow, StoreProps.LogsUntouched.
- `StoreOps.Run`: StoreProps.CountersNonNegativeOverRun, StoreProps.LogsOnlyGrowOverRun.
- `StoreProps.CountersNonNegative`: StoreProps.CountersStayNonNegative, StoreProps.DeleteKeepsCounters, StoreProps.AddKeepsCounters, StoreProps.UpdateKeepsCounters, StoreProps.CountersNonNegativeOverRun, and 2 more.
- `StoreProps.KeepsCountersNonNegative`: StoreProps.CountersStayNonNegative, StoreProps.CountersNonNegativeOverRun.
- `Text.LowerChar`: Text.Lower.
- `Text.Includes`: Text.IncludesEmpty, Text.IncludesSelf, InventoryView.FilteredExactly, SalesView.ItemNameMatches.
- `Text.IncludesIgnoringCase`: RepRecordSale.AvailableProductsExactly, RepAddStock.FilteredProducts.
- `Text.DigitsValue`: Text.NatString.
- `Text.IsDigit`: Text.DigitsOnly, Text.DigitsOnlyOfDigits, Text.NatString, UsersPage.SanitizePinShape.
- `Text.Initials`: Text.InitialsAtSpace, Text.InitialsOfWord, Text.InitialsOfTwoWords.
- `Text.FirstChars`: Text.FirstCharsAppend.
- `UsersPage.RepMatches`: UsersPage.FilteredReps.
- `UsersPage.SanitizePin`: UsersPage.SanitizePinShape, UsersPage.SanitizePinIdempotent, UsersPage.Page.SetPin.
- `UsersPage.EmptyForm`: UsersPage.Page.constructor, UsersPage.Page.HandleSubmit, UsersPage.Page.HandleClosePanel.
- `UsersPage.FormOf`: UsersPage.EditUnchangedIsNoOp, UsersPage.Page.HandleEdit.
- `UsersPage.FormPatch`: UsersPage.SaveEditMeaning, UsersPage.EditUnchangedIsNoOp, UsersPage.Page.HandleSubmit.
- `UsersPage.TogglePatch`: UsersPage.ToggleFlipsOnlyActive, UsersPage.ToggleTwiceRestores, UsersPage.Page.ToggleActive.

The remaining definitions are building blocks. Each is stated through the definitions that use it:

- `DashboardStats.CountedToday`: through `DashboardStats.CountedTodayAt`.
- `DashboardStats.CountedTodayAt`: through `DashboardStats.TodaySalesTotal`.
- `DashboardStats.SinceMidnightAt`: through `DashboardStats.TodayTransactions`.
- `DashboardStats.RevenueAbbreviated`: the "M" display switch; the format itself is display formatting, under "## Left out".
- `Domain.NameMatches`: through `RepAddStock.FilteredProducts`, `RepRecordSale.AvailableProducts`.
- `Domain.IsApproved`: through `DashboardStats.ApprovedCount`, `RepDashboard.ApprovedCount`, `SalesView.ApprovedToday`.
- `Domain.SameDayAs`: through `Domain.TodaySales`.
- `Domain.ActorId`: through `Domain.OrElse`; the actor recorded by StoreProps.AddStockOnKnownProduct.
- `Domain.ActorName`: through `Domain.OrElse`.
- `Domain.LocaleString`: through `StoreOps.ApprovalEntry`, `StoreOps.DisputeEntry`.
- `Domain.Grouped`: through `Domain.LocaleString`.
- `Domain.Pad3`: through `Domain.Grouped`.
- `AuthValidation.Plain`: through `AuthValidation.AllPlain`.
- `AuthValidation.Id`: through `AuthValidation.IsEmail`.
- `InventoryView.MatchesSearch`: through `InventoryView.Matches`.
- `InventoryView.MatchesCategory`: through `InventoryView.Matches`.
- `OwnerRecordSale.BlankRow`: through `OwnerRecordSale.InitialRows`, `OwnerRecordSale.AfterAddItem`.
- `OwnerRecordSale.NotId`: through `OwnerRecordSale.AfterRemoveItem`.
- `OwnerRecordSale.HasId`: through `OwnerRecordSale.AfterUpdateItem`, `OwnerRecordSale.AfterUpdateQuantity`.
- `OwnerRecordSale.Picked`: through `OwnerRecordSale.AfterUpdateItem`.
- `OwnerRecordSale.WithQuantity`: through `OwnerRecordSale.AfterUpdateQuantity`.
- `OwnerRecordSale.LineTotal`: through `OwnerRecordSale.Total`.
- `OwnerRecordSale.InStock`: through `OwnerRecordSale.OfferedProducts`.
- `OwnerRecordSale.IsActiveRep`: through `OwnerRecordSale.RepChoices`.
- `OwnerRecordSale.SelectedRep`: through `OwnerRecordSale.Payload`.
- `OwnerRecordSale.ToSaleItem`: through `OwnerRecordSale.Payload`.
- `Reconciliation.PaidBy`: through `Reconciliation.PaidWith`.
- `Reconciliation.TransferSales`: through `Reconciliation.TotalExpected`.
- `Reconciliation.PosSales`: through `Reconciliation.TotalExpected`.
- `Reconciliation.CashReceivedNum`: through `Reconciliation.Difference`.
- `Reconciliation.Abs`: through `Reconciliation.IsBalanced`, `Reconciliation.OutcomeOf`.
- `Reconciliation.IsBalanced`: through `Reconciliation.OutcomeOf`.
- `Reconciliation.Heading`: the heading text of each outcome of `Reconciliation.OutcomeOf`.
- `Reconciliation.SubmitDisabled`: the button guard, with no property beyond its definition.
- `Reconciliation.PaidWith`: through `Reconciliation.MethodCount`.
- `Reconciliation.PendingToday`: through `Reconciliation.ShowPendingWarning`.
- `RegisterForm.CheckFullName`: through `RegisterForm.Errors`.
- `RegisterForm.CheckShopName`: through `RegisterForm.Errors`.
- `RegisterForm.CheckEmail`: through `RegisterForm.Errors`.
- `RegisterForm.CheckPassword`: through `RegisterForm.Errors`.
- `RegisterForm.CheckConfirm`: through `RegisterForm.Errors`.
- `RegisterForm.CheckAgreeTerms`: through `RegisterForm.Errors`.
- `RepDashboard.ByRep`: through `RepDashboard.MySales`.
- `RepRecordSale.NotId`: through `RepRecordSale.AfterRemoveItem`, `RepRecordSale.SelectedIds`.
- `RepRecordSale.DistinctProducts`: through `RepRecordSale.Wellformed`.
- `RepRecordSale.QuantitiesPositive`: through `RepRecordSale.Wellformed`.
- `RepRecordSale.WithQuantity`: through `RepRecordSale.AfterUpdateQuantity`.
- `RepRecordSale.ProductIdOf`: through `RepRecordSale.SelectedIds`.
- `RepRecordSale.Selectable`: through `RepRecordSale.SelectableAmong`.
- `RepRecordSale.SelectableAmong`: through `RepRecordSale.AvailableProducts`.
- `RepRecordSale.ToSaleItem`: through `RepRecordSale.Payload`.
- `RepRecordSale.RecordSalePage.GetAvailableProducts`: `RepRecordSale.AvailableProducts` with the page's rows and search, stated by RepRecordSale.AvailableProductsExactly.
- `ReportsView.ProfitAt`: through `ReportsView.SalesProfit`, `ReportsView.DayPointFor`.
- `ReportsView.CountsOnDay`: through `ReportsView.CountsOn`.
- `ReportsView.CountsOn`: through `ReportsView.DaySales`, `ReportsView.DayPointFor`.
- `ReportsView.CategoryName`: through `ReportsView.AddToTotals`.
- `ReportsView.RepBarFor`: through `ReportsView.RepPerformance`.
- `ReportsView.ThisWeekStart`: through `ReportsView.InThisWeek`, `ReportsView.InLastWeek`.
- `ReportsView.LastWeekStart`: through `ReportsView.InLastWeek`, `ReportsView.InLastTwoWeeks`.
- `SalesView.StatusName`: through `SalesView.MatchesStatus`.
- `SalesView.WeekAgo`: through `SalesView.MatchesDate`.
- `SalesView.MonthAgo`: through `SalesView.MatchesDate`.
- `SalesView.ItemMatches`: through `SalesView.MatchesSearch`.
- `Seqs.GetOr`: through `Domain.PatchProduct` and `Domain.PatchSalesRep`, stated by Domain.EmptyPatchesChangeNothing.
- `Seqs.Find`: through `OwnerRecordSale.SelectedRep`, `RepRecordSale.AfterUpdateQuantity`, `StoreOps.FindProduct`, `StoreOps.FindSale`, `StoreOps.FirstItemFor`.
- `Seqs.Map`: through `OwnerRecordSale.RepChoices`, `OwnerRecordSale.Payload`, `RepRecordSale.SelectedIds`, `RepRecordSale.Payload`, `ReportsView.RepPerformance`, `StaffSummary.RepStats`, `StoreOps.AfterSale`, `StoreOps.AfterDispute`.
- `Seqs.SumWhere`: through `ReportsView.DayPointFor`.
- `Seqs.Prefix`: through `RepDashboard.LowStockAlertList`.
- `Seqs.SortedBy`: the order stated by InventoryView.FilteredProductsSortedPermutation.
- `Seqs.Insert`: through `Seqs.SortBy`.
- `Seqs.SortBy`: through `InventoryView.FilteredProducts`, `StaffSummary.TopPerformer`.
- `Seqs.TiedWith`: through `InventoryView.SameRank`, in the stability proof of InventoryView.FilteredProductsStable.
- `Seqs.IsLeastAt`: the notion stated by StaffSummary.TopPerformerIsBest.
- `StaffSummary.CountsForAt`: through `StaffSummary.RepTodaySales`.
- `StaffSummary.RepStat`: through `StaffSummary.RepStats`.
- `StaffSummary.IsActive`: through `StaffSummary.ActiveReps`.
- `StaffSummary.AvatarInitials`: `Text.Initials` of the rep's name, stated by Text.InitialsAtSpace, Text.InitialsOfWord and Text.InitialsOfTwoWords.
- `StoreOps.ProductFromDraft`: through `StoreOps.AddProduct`.
- `StoreOps.SalesRepFromDraft`: through `StoreOps.AddSalesRep`.
- `StoreOps.SellFrom`: through `StoreOps.AfterSale`.
- `StoreOps.RestockFrom`: through `StoreOps.AfterDispute`.
- `StoreOps.SaleLogFor`: through `StoreOps.SaleLogs`.
- `StoreOps.Credit`: through `StoreOps.Credited`.
- `StoreOps.Debit`: through `StoreOps.Debited`.
- `StoreOps.UpdatedProducts`: through `StoreOps.UpdateProduct`.
- `StoreOps.WithoutProduct`: through `StoreOps.DeleteProduct`.
- `StoreOps.AfterSale`: through `StoreOps.RecordSale`.
- `StoreOps.AfterDispute`: through `StoreOps.DisputeSale`.
- `StoreOps.Credited`: through `StoreOps.RecordSale`.
- `StoreOps.Debited`: through `StoreOps.DisputeSale`.
- `StoreOps.WithStatus`: through `StoreOps.ApproveSale`, `StoreOps.DisputeSale`.
- `StoreOps.UpdatedReps`: through `StoreOps.UpdateSalesRep`.
- `StoreOps.WithoutRep`: through `StoreOps.DeleteSalesRep`.
- `StoreOps.LoginEntry`: through `StoreOps.SetCurrentUser`.
- `StoreOps.ProductAddedEntry`: through `StoreOps.AddProduct`.
- `StoreOps.StockAddedLog`: through `StoreOps.AddStock`.
- `StoreOps.StockAddedEntry`: through `StoreOps.AddStock`.
- `StoreOps.SaleEntry`: through `StoreOps.RecordSale`.
- `StoreOps.ApprovalEntry`: through `StoreOps.ApproveSale`.
- `StoreOps.DisputeEntry`: through `StoreOps.DisputeSale`.
- `StoreOps.RepAddedEntry`: through `StoreOps.AddSalesRep`.
- `StoreOps.StepState`: through `StoreOps.Run`.
- `Text.OccursAt`: through `Text.Includes`.
- `Text.IsJsWhitespace`: through `AuthValidation.Plain`.
- `Text.FirstWord`: through `ReportsView.RepBarFor`.
- `Text.DigitChar`: through `Domain.Pad3`, `Text.NatString`.
- `Text.DecimalString`: through `StoreOps.StockAddedEntry`.
- `UsersPage.RepMatchesQuery`: through `UsersPage.FilteredReps`.

## Left out

- Persistence: the store is saved to and restored from local storage by its persistence middleware, and the language choice is stored there too. This is browser I/O.
- Clocks and ids: `Date.now()`, `new Date()` and `toISOString()` become the `stamp` and `now` parameters. Two operations in the same millisecond would share an id; the model does not capture these collisions.
- Calendar and time zones: a moment is whole milliseconds on the local clock, and its calendar day is `t / 86400000`. Daylight-saving shifts and time-zone offsets are not modelled.
- ReportsView.ThisWeekStart and ReportsView.LastWeekStart: `setDate(getDate() - 7)` and `- 14` are modelled as exactly 7 and 14 days of milliseconds. This is the same moment of the day only when there is no daylight-saving change in between.
- Number parsing: `parseInt` and `parseFloat` of a form field are parameters (`Option<int>` or `Option<real>`, with `None` standing for NaN). A number field holds "" or a valid number, but a valid number such as ".5e1" (which is 5) can still parse to NaN with `parseInt`, so every handler also takes `None` for a non-empty field.
- AddStockForm.Form.HandleSubmit: for a quantity such as ".5e1", `parseInt` gives NaN, the guard `parseInt(quantity) <= 0` is false, and the source calls `addStock` with NaN, storing a NaN stock level and a NaN ledger entry. An integer stock level cannot hold NaN, so this outcome (`RestockedWithNaN`) promises only what that call keeps: the other products, the product's other fields, the sales, the reps and the user, with the ledger and the feed at most growing at the front. The model's store itself is left as it was.
- RepAddStock.Page.HandleSubmit: the same NaN call happens on the rep page for a quantity such as ".5e1", and is modelled the same way. The form fields are still cleared.
- Floating point: money is an integer number of naira. The average order value, the week-over-week change and the cash difference are exact reals, with no float rounding.
- Display formatting: `toFixed(1)`, the "M" revenue format, currency symbols and date formatting are left out. `toLocaleString` is modelled only for the whole-naira amounts in the approval and dispute activity messages, and only in the en-US locale (commas between groups of three digits). The source calls it with no locale argument, so the browser's locale decides: de-DE gives "1.500" and en-IN gives "1,00,000". The grouped amounts shown in views such as the staff summary (components/dashboard/staff-summary.tsx:99) are display only.
- Browser form validation: `required` and `min="1"` are checked by the browser before a submit handler runs. The model does not capture them, so handlers are modelled on every input they can receive.
- Timers and async: the 500 ms and 1000 ms delays, `isLoading` and `isSubmitting`, the success flash and the 4-second carousel interval are left out. Only the index update inside the interval callback is modelled, as `LowStockCarousel.Carousel.Tick`.
- Concurrency: handlers run one at a time on the current state. A store call interleaved with a delayed handler is not modelled.
- Text.Lower: lowers only the ASCII letters A-Z. `toLowerCase` also lowers other scripts, so searches over non-ASCII names match less in the model.
- Text.CompareStrings: `localeCompare` is modelled as code-point order. Locale collation, such as ignoring case and accents, is not modelled.
- Text lengths: a string is a sequence of characters. JavaScript counts UTF-16 code units, so a password of astral characters has a different length there.
- StoreOps.RecordSale and DomainStore.Store.RecordSale require every line item's product to be in the store. At lib/store.ts:213 the source dereferences the lookup with `!`, so a missing product makes `product.quantity` throw and the sale is never stored.
- Translations: every message is a `Message` value. The translation tables and the language selector are static data.
- Navigation: the login and register forms' `router.push` after a simulated delay is left out.
- Display-only components: charts, headers, sidebars, layouts, stat cards, quick actions, slide-over panels, the live sales counter, the auth layout and the settings page are left out. Recent sales and top products show fixed sample data.
- Thin display filters already covered by the store model are left out: the stock history panel, the pending approvals list, the live activity feed and the sale details panel.
- The add-product and edit-product forms are left out. They only parse strings and pass them to `addProduct` and `updateProduct`, which are modelled.

## Findings

| source | as written | input that shows it | evidently intended | confidence | as-written member | corrected member |
|---|---|---|---|---|---|---|
| components/dashboard/low-stock-carousel.tsx:13-57 | `currentIndex` is kept when the low-stock list shrinks. The rotation effect returns early for one item, and `lowStockItems[currentIndex]` is read without bringing the index back into range. | Two low-stock products, move to the second (index 1), then restock it above its threshold. One item is left, the index is still 1, `currentItem` is undefined, and `currentItem.quantity` throws. | The card shows an item of the current list, for example the one at `currentIndex % length`. | not executed | LowStockCarousel.IsCriticalAsWritten (shown by LowStockCarousel.StaleIndexAfterRestock) | LowStockCarousel.CurrentItem |
