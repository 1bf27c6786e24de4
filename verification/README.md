# Portfolio dashboard: reconciliation and list logic in Dafny

This project models the logic core of a personal-finance dashboard written in TypeScript
(Next.js and React). Two parts are modelled.

- **The transaction route.** `POST /api/transactions` validates a buy, sell or transfer
  request. It applies an affordability gate, updates the user's budget (cash, investments,
  total balance, active positions) and prepends the new row to an in-memory ledger.
  `GET` filters the ledger and sorts it newest first. The user route seeds the budget and
  lets `PUT` change the profile fields.
- **The list logic inside the components.** This covers:
  - the transaction history table: filter, sort, search, limit, delete and row labels;
  - the portfolio grid: filter, sort, pagination, the page-link strip and delete;
  - the portfolio item form: numeric clean-up, asset lines, validation and upsert;
  - symbol search and grouping by sector;
  - the watchlist and its add dialog;
  - the confirmation dialog's budget impact;
  - the markets table.

Every operation is a pure function over immutable datatypes. The route's module-level
state (`transactions`, `currentUser.budget`) is passed in and returned. `uuidv4()`
becomes a `freshId` parameter, with freshness as a precondition, and `new Date()`
becomes a `now` parameter. Money is an exact `real`. A date is an `int` timestamp; date
filter values stay strings and are read through a `parse` parameter that stands for
`new Date(...)`.

Modules (one per source file, plus shared helpers):

| file | module | models |
|---|---|---|
| wrappers.dfy | `Wrappers` | `Option`, `Result` |
| text.dfy | `Text` | `toLowerCase`, `includes`, `trim`, `localeCompare` |
| seqs.dfy | `Seqs` | `filter`, subsequences, a comparison sort, `slice` |
| types.dfy | `Types` | types/transaction.ts, types/user.ts |
| transactions_route.dfy | `TransactionsRoute` | app/api/transactions/route.ts |
| user_route.dfy | `UserRoute` | app/api/user/route.ts |
| transaction_history.dfy | `TransactionHistory` | components/transaction-history.tsx |
| portfolio_grid.dfy | `PortfolioGrid` | components/portfolio-grid.tsx |
| portfolio_item_form.dfy | `PortfolioItemForm` | components/portfolio-item-form.tsx |
| stock_symbols.dfy | `StockSymbols` | components/stock-symbols-data.tsx |
| market_watchlist.dfy | `MarketWatchlist` | components/market-watchlist.tsx |
| add_to_watchlist.dfy | `AddToWatchlist` | components/add-to-watchlist.tsx |
| transaction_confirmation.dfy | `TransactionConfirmation` | components/transaction-confirmation.tsx |
| markets_page.dfy | `MarketsPage` | app/markets/page.tsx |

A few facts about the code that a reader might not expect, all of which the model keeps:

- The route puts no upper bound on a request's amount.
- A transfer row stores the submitted price and is valued at amount × price.
- The seeded budget is unbalanced (`UserRoute.SeedIsUnbalanced`). Total = cash + investments holds only after an accepted request.

## Model

| member | source | states |
|---|---|---|
| TransactionsRoute.Query | app/api/transactions/route.ts:94-128 | Each ledger row is returned exactly as often as it occurs in the ledger when it meets every supplied filter, and never otherwise. `"all"` or empty means no filter for type and status, and the date bounds are inclusive. Dates never increase along the result. |
| TransactionsRoute.NewestFirst | app/api/transactions/route.ts:128 | The `b.date - a.date` comparator is a total preorder, so the sort is well defined. |
| TransactionsRoute.EffectiveDirection | app/api/transactions/route.ts:153-156 | A transfer always carries a direction, send when none was given. A direction that was given is kept. |
| TransactionsRoute.Process | app/api/transactions/route.ts:149-255 | Missing type, empty asset, amount ≤ 0 or price ≤ 0 is rejected as invalid (iff). A valid buy with amount·price > cash, or a valid send-transfer with amount > cash, is rejected as unaffordable (iff); equality is accepted. Otherwise exactly one row is prepended to the unchanged ledger: the fresh id, value amount·price, status completed, user `user1`, the effective direction; distinct ids stay distinct. A buy moves value from cash to investments, and positions grow by one iff the ledger has no completed buy of the asset. A sell moves value back, and positions drop, floored at 0, iff the net held quantity afterwards is ≤ 0. A transfer moves cash only. Afterwards total = cash + investments. |
| TransactionsRoute.NetQuantityAppend | app/api/transactions/route.ts:214-221 | The bought-minus-sold quantity of a ledger is the sum over its parts. |
| TransactionsRoute.DecrementFloored | app/api/transactions/route.ts:224 | `Math.max(0, n - 1)` is never negative and is n − 1 whenever n ≥ 1. |
| TransactionsRoute.ProcessCorrected | app/api/transactions/route.ts:166-178 | With transfers valued at unit price, the gate's amount is what leaves cash. A request is refused iff it is invalid or unaffordable, and non-negative cash stays non-negative. |
| TransactionsRoute.SendTransferOverdraws | app/api/transactions/route.ts:166-229 | As written, 100 in cash and a send of 100 at price 2 is accepted and leaves cash at −100. The corrected route also accepts it, at value 100, leaving cash at 0. |
| TransactionsRoute.BuyNeverOverdraws | app/api/transactions/route.ts:166-198 | An accepted buy never takes non-negative cash below zero. |
| TransactionsRoute.Submit | app/api/transactions/route.ts:159-247 | A refused request leaves the store unchanged. An accepted one prepends the created row and balances the budget. |
| TransactionsRoute.Replay | app/api/transactions/route.ts:149-255 | Over any run of requests with fresh ids: existing rows are never altered, the ledger grows by the number accepted, ids stay distinct, positions stay non-negative, and the budget is balanced after the first acceptance. |
| TransactionsRoute.TransferRoundTrip | app/api/transactions/route.ts:226-236 | A send followed by a receive of the same amount and price restores cash exactly and leaves investments and positions alone. |
| TransactionsRoute.SeedLedger | app/api/transactions/route.ts:13-91 | The seeded ledger has seven rows with distinct ids. |
| TransactionsRoute.BuyScenario | app/api/transactions/route.ts:195-207 | From the seeded budget, buying 5 AAPL at 178.72 gives value 893.60 and budget (17465.89, 13127.60, 4338.29, 12). A first buy of META raises positions to 13. |
| TransactionsRoute.UnaffordableScenario | app/api/transactions/route.ts:166-175 | Buying 1000 AAPL at 178.72 with 5231.89 in cash is refused for insufficient funds. |
| TransactionsRoute.DefaultDirectionScenario | app/api/transactions/route.ts:153-156 | A transfer without a direction has exactly the outcome of an explicit send. |
| UserRoute.SeedIsUnbalanced | app/api/user/route.ts:10-15 | The seeded total 45231.89 differs from cash + investments (17465.89). |
| UserRoute.Pick | app/api/user/route.ts:40-42 | A field is replaced iff the update supplies a non-empty value. |
| UserRoute.UpdateUser | app/api/user/route.ts:35-44 | `PUT` never changes the id or the budget. Each of name, email and imageUrl is replaced only by a non-empty supplied value. |
| UserRoute.EmptyUpdateIsIdentity | app/api/user/route.ts:40-42 | An update supplying no non-empty field leaves the user identical. |
| UserRoute.UpdateIdempotent | app/api/user/route.ts:40-42 | Applying the same update twice equals applying it once. |
| TransactionHistory.HandleFilterChange | components/transaction-history.tsx:236-241 | `"all"` removes the key, any other value sets it, and every other key is untouched. |
| TransactionHistory.FilterRows | components/transaction-history.tsx:182-204 | The rows kept are exactly those passing every set filter (type, asset, status by equality; inclusive date bounds), with their multiplicities, in original order. |
| TransactionHistory.AllClearsFilter | components/transaction-history.tsx:236-241 | Choosing "all" for an unset key loads the same rows as before. |
| TransactionHistory.HandleSort | components/transaction-history.tsx:244-251 | The clicked column becomes the sort column. The direction flips when it already was; a new column starts descending. |
| TransactionHistory.HandleSortTwice | components/transaction-history.tsx:244-251 | Clicking the current column twice restores the sort state. |
| TransactionHistory.Comparator | components/transaction-history.tsx:266-282 | The column comparator, in either direction, is a total preorder: dates and numbers by value, strings in code-unit order. |
| TransactionHistory.SortRows | components/transaction-history.tsx:266-282 | The result is a permutation of the rows, ordered by the column in the chosen direction. |
| TransactionHistory.Search | components/transaction-history.tsx:285-295 | An empty term keeps every row. Otherwise a row is kept, in order, iff the lowercased term occurs in its lowercased asset, id, type or status. A kept row keeps every copy it had. |
| TransactionHistory.EmptySearchHitsAll | components/transaction-history.tsx:286-294 | The empty term occurs in every row, so the early return agrees with the filter. |
| TransactionHistory.ApplyLimit | components/transaction-history.tsx:298 | A missing or zero limit shows all rows. A positive limit shows the first min(limit, n); a negative one drops rows from the end, as `slice` does. |
| TransactionHistory.Displayed | components/transaction-history.tsx:266-298 | Every row on screen is a loaded row that passes the filters and the search, and a positive limit bounds the count. |
| TransactionHistory.DeleteRow | components/transaction-history.tsx:351 | Every row with the id is removed. The rest keep their order and every copy they had. The table shrinks iff some row had that id. |
| TransactionHistory.SubMultisetSmaller | components/transaction-history.tsx:351 | A filter that rejects some element returns a strictly shorter sequence. |
| TransactionHistory.TypeText | components/transaction-history.tsx:373-378 | A transfer is labelled moneySent iff its direction is send, otherwise moneyReceived. Other rows use their type. |
| TransactionHistory.ValueSign | components/transaction-history.tsx:574-579 | The value is prefixed "+" iff the row is a sell or a receive-transfer, otherwise "−". |
| TransactionHistory.SignFollowsCash | components/transaction-history.tsx:574-579 | For a row the route just accepted, "+" is shown iff cash went up and "−" iff it went down. |
| PortfolioGrid.FilteredData | components/portfolio-grid.tsx:298-316 | A row is kept, in order, iff the search is empty or its lowercased name or type contains the term, and it equals every non-empty filter. A kept row keeps every copy it had. A numeric column never equals a string filter. |
| PortfolioGrid.HandleFilterChange | components/portfolio-grid.tsx:261-267 | `"all"` clears the filter, another value sets it, the other filters stay, and the grid returns to page 1. |
| PortfolioGrid.HandlePageSizeChange | components/portfolio-grid.tsx:638-639 | A new page size returns the grid to page 1 and changes nothing else. |
| PortfolioGrid.ClearFilters | components/portfolio-grid.tsx:492-495 | Clearing empties filters and search, after which every row passes. |
| PortfolioGrid.ClearShowsAll | components/portfolio-grid.tsx:492-495 | After clearing, the filtered data is the full data. |
| PortfolioGrid.HandleSort | components/portfolio-grid.tsx:251-258 | Clicking the current column flips the direction; a new column starts ascending. |
| PortfolioGrid.Comparator | components/portfolio-grid.tsx:319-330 | The column comparator, in either direction, is a total preorder. |
| PortfolioGrid.SortedData | components/portfolio-grid.tsx:319-330 | The sorted data is a permutation of the filtered data, ordered by the column in the chosen direction. |
| PortfolioGrid.TotalPages | components/portfolio-grid.tsx:336 | `Math.ceil(n / size)`: the least page count whose pages hold all n rows. |
| PortfolioGrid.PageWindow | components/portfolio-grid.tsx:333-336 | Page p is rows[(p−1)·size, min(p·size, n)). It holds at most `size` rows and is non-empty iff p ≤ totalPages. |
| PortfolioGrid.PagesUpToPrefix | components/portfolio-grid.tsx:333 | Pages 1..k concatenated are the first min(k·size, n) rows. |
| PortfolioGrid.AllPagesCoverRows | components/portfolio-grid.tsx:333-336 | Pages 1..totalPages concatenated give back the sorted data. |
| PortfolioGrid.PreviousPage | components/portfolio-grid.tsx:658 | Previous never goes below page 1. |
| PortfolioGrid.NextPage | components/portfolio-grid.tsx:667 | Next never goes past totalPages. |
| PortfolioGrid.MiddleLinks | components/portfolio-grid.tsx:361-371 | The loop emits one link per page from lo to hi, the current one marked active. |
| PortfolioGrid.Middle | components/portfolio-grid.tsx:361-371 | The middle run lists max(2, c−1)..min(totalPages−1, c+1), strictly between the first and the last page. |
| PortfolioGrid.PaginationItems | components/portfolio-grid.tsx:339-394 | Page 1 comes first. Link pages strictly increase, so none repeats. Exactly the current page's link is active. The last page closes the strip iff totalPages > 1. |
| PortfolioGrid.StripIndexes | components/portfolio-grid.tsx:339-394 | The strip is, by position: page 1, the optional leading ellipsis, the middle run, the optional trailing ellipsis, the optional last page. |
| PortfolioGrid.StripOrdered | components/portfolio-grid.tsx:339-394 | In that layout, link pages strictly increase and the active flag marks the current page. |
| PortfolioGrid.PaginationShowsCurrent | components/portfolio-grid.tsx:339-394 | When 1 ≤ current ≤ totalPages, the current page is listed and active. |
| PortfolioGrid.PaginationGaps | components/portfolio-grid.tsx:351-380 | Adjacent links are consecutive pages. Every ellipsis sits between links at least two pages apart. The leading ellipsis appears iff current > 3, the trailing one iff current < totalPages − 2. |
| PortfolioGrid.LayoutLinksConsecutive | components/portfolio-grid.tsx:361-371 | Neighbouring links in the layout are consecutive pages. |
| PortfolioGrid.LayoutEllipsesFlanked | components/portfolio-grid.tsx:351-380 | Each ellipsis has a link on both sides, skipping at least one page. |
| PortfolioGrid.LayoutGapEnds | components/portfolio-grid.tsx:352-374 | The second item is an ellipsis iff current > 3. The second-to-last is one iff current < totalPages − 2. |
| PortfolioGrid.ConfirmDelete | components/portfolio-grid.tsx:275-285 | With an id pending, exactly the rows with that id go. The rest keep their order and their number of copies. Without one, nothing changes. |
| PortfolioItemForm.StripZeros | components/portfolio-item-form.tsx:95 | `replace(/^0+/, "")` removes exactly the leading run of zeros: the result is a suffix that does not start with '0'. |
| PortfolioItemForm.CleanNumeric | components/portfolio-item-form.tsx:94-101 | The result is never empty. Input longer than one character, starting with '0' and not followed by '.', loses all its leading zeros ("0" when nothing remains). Any other non-empty input is unchanged. An all-zero input becomes "0". |
| PortfolioItemForm.CleanNumericIdempotent | components/portfolio-item-form.tsx:94-101 | Cleaning a cleaned value changes nothing. |
| PortfolioItemForm.StripZerosKeepsValue | components/portfolio-item-form.tsx:95 | On digit strings, stripping leading zeros keeps the number denoted. |
| PortfolioItemForm.CleanNumericKeepsValue | components/portfolio-item-form.tsx:94-106 | On digit strings the clean-up keeps the number the field receives. |
| PortfolioItemForm.TotalAllocationAppend | components/portfolio-item-form.tsx:180 | The summed allocation of a concatenation is the sum of the parts. |
| PortfolioItemForm.PositiveAllocationsBounded | components/portfolio-item-form.tsx:180 | With all allocations positive, each is at most the total and the total is positive. |
| PortfolioItemForm.AddAsset | components/portfolio-item-form.tsx:159-164 | One empty line (symbol "", allocation 0) is appended and the existing lines are unchanged. |
| PortfolioItemForm.RemoveAsset | components/portfolio-item-form.tsx:167-177 | With at most one line nothing changes, so a non-empty form never drops below one line. Otherwise `splice(index, 1)` removes exactly one line and keeps the others in order. That line is `index` when 0 ≤ index < n, `n + index` when −n ≤ index < 0, and the first line when index < −n. An index at or past the end removes nothing. |
| PortfolioItemForm.AddAssetKeepsTotal | components/portfolio-item-form.tsx:159-180 | Adding a line keeps the total allocation. |
| PortfolioItemForm.RemoveUndoesAdd | components/portfolio-item-form.tsx:159-177 | Removing the line just added gives back the original lines. |
| PortfolioItemForm.RemoveAssetTotal | components/portfolio-item-form.tsx:167-180 | Removing a line lowers the total by exactly its allocation. |
| PortfolioItemForm.ValidateForm | components/portfolio-item-form.tsx:183-240 | The first failing check, in source order, names the error: blank name, empty type, empty risk level, total value ≤ 0, an asset with blank symbol or allocation ≤ 0, total allocation off 100 by more than 0.01. There is no error iff all checks pass. |
| PortfolioItemForm.ValidFormShares | components/portfolio-item-form.tsx:222-240 | A form that validates has at least one asset line, and each allocation lies in (0, 100.01]. |
| PortfolioItemForm.FindId | components/portfolio-item-form.tsx:264 | `findIndex` returns the first row with the id, and none iff no row has it. |
| PortfolioItemForm.Save | components/portfolio-item-form.tsx:183-271 | Saving fails iff validation does, with that error. On success the item is stamped with `now`. Add appends it. Edit replaces the first row with the edited id in place, keeping the length and every other row, and changes nothing when the id is absent. |
| PortfolioItemForm.EditKeepsPosition | components/portfolio-item-form.tsx:262-267 | After an edit that keeps the id, the id is found at the same position, holding the saved item. |
| PortfolioItemForm.AddAppends | components/portfolio-item-form.tsx:268-271 | An add keeps every existing row in place and puts the stamped item last. |
| StockSymbols.FilterSymbols | components/stock-symbols-data.tsx:117-127 | The empty term returns the whole catalogue. Otherwise an entry is kept, in order, iff the lowercased term occurs in its lowercased symbol, name or sector. A kept entry keeps every copy it had. |
| StockSymbols.EmptyTermMatchesAll | components/stock-symbols-data.tsx:118-126 | The early return for an empty term agrees with the filter. |
| StockSymbols.SectorEntriesMembers | components/stock-symbols-data.tsx:133-138 | A sector's group holds exactly the catalogue entries of that sector. |
| StockSymbols.SectorEntriesIsFilter | components/stock-symbols-data.tsx:133-138 | A sector's group is the catalogue filtered on that sector, in catalogue order. |
| StockSymbols.FindSector | components/stock-symbols-data.tsx:134 | A key lookup finds the group with that sector, and none iff no group has it. |
| StockSymbols.AddStockKnown | components/stock-symbols-data.tsx:133-138 | Pushing an entry onto its existing group keeps the grouping exact. |
| StockSymbols.AddStockNew | components/stock-symbols-data.tsx:133-138 | Creating a new sector's group for an entry keeps the grouping exact. |
| StockSymbols.SymbolsBySector | components/stock-symbols-data.tsx:130-141 | There are no groups iff the catalogue is empty. The keys are distinct. Each group is non-empty and equals its sector's entries in catalogue order. Every entry's sector is a key, and the group sizes sum to the catalogue length. |
| StockSymbols.EachStockInOneGroup | components/stock-symbols-data.tsx:130-141 | Every entry is in the group keyed by its sector and in no other. |
| MarketWatchlist.DefaultWatchlist | components/market-watchlist.tsx:335 | The first-time watchlist has five distinct symbols. |
| MarketWatchlist.FilteredWatchlist | components/market-watchlist.tsx:347-353 | Shown, in catalogue order: exactly the known stocks whose symbol is listed and whose lowercased symbol or name contains the lowercased term. Each is shown as many times as it occurs in the catalogue. |
| MarketWatchlist.EmptySearchShowsWatchlist | components/market-watchlist.tsx:347-353 | With an empty search every listed known stock is shown. |
| MarketWatchlist.Toggle | components/market-watchlist.tsx:356-376 | A listed symbol is removed (every occurrence) and the others keep their order and their number of copies. An unlisted one is appended. The symbol is listed afterwards iff it was not before. |
| MarketWatchlist.ToggleTwiceRestores | components/market-watchlist.tsx:361-370 | Toggling an unlisted symbol twice restores the watchlist exactly. |
| MarketWatchlist.ToggleTwiceMovesLast | components/market-watchlist.tsx:361-370 | Toggling a listed symbol twice keeps the same symbols and moves it last. |
| MarketWatchlist.ToggleKeepsNoDuplicates | components/market-watchlist.tsx:356-376 | Toggling keeps a duplicate-free watchlist duplicate-free. |
| MarketWatchlist.AddSymbol | components/market-watchlist.tsx:384-393 | The symbol is appended only if absent. A duplicate-free list stays duplicate-free, and the list is extended, never reordered. |
| MarketWatchlist.AddIdempotent | components/market-watchlist.tsx:384-393 | Adding the same symbol twice equals adding it once. |
| MarketWatchlist.AddAgreesWithToggle | components/market-watchlist.tsx:356-393 | For an unlisted symbol, adding and toggling agree. |
| MarketWatchlist.AddedStockShown | components/market-watchlist.tsx:347-393 | A known stock matching the search is shown once its symbol is added. |
| AddToWatchlist.DialogLeIsTotalPreorder | components/add-to-watchlist.tsx:53-62 | The two-key comparator (unlisted first, then symbol) is a total preorder. |
| AddToWatchlist.FilteredStocks | components/add-to-watchlist.tsx:47-62 | The result is a permutation of the matching stocks (lowercased symbol or name contains the term). Every unlisted stock precedes every listed one, and within each part symbols are in order. |
| AddToWatchlist.AddClick | components/add-to-watchlist.tsx:117 | `onAddStock` is invoked iff the stock is not already listed, and then with its symbol. |
| AddToWatchlist.ClickAddsOnce | components/add-to-watchlist.tsx:117 | A click lists the stock. It appends its symbol iff it was unlisted, and keeps the list duplicate-free. |
| AddToWatchlist.ClickedStockSinks | components/add-to-watchlist.tsx:53-62 | After a click the stock sorts after every stock still unlisted. |
| TransactionConfirmation.StatusColor | components/transaction-confirmation.tsx:47-58 | completed, pending and failed map to green, yellow and red. Every other string maps to grey. |
| TransactionConfirmation.StatusColorsDistinct | components/transaction-confirmation.tsx:47-58 | The three statuses get three distinct non-grey colours. |
| TransactionConfirmation.BudgetImpact | components/transaction-confirmation.tsx:98-124 | A buy announces −value to cash and +value to investments, a sell the reverse. Any transfer announces +value to cash and 0 to investments. For buy and sell the two impacts cancel. |
| TransactionConfirmation.ImpactAgreesWithRoute | components/transaction-confirmation.tsx:98-124 | For every accepted request except a send-transfer, the announced impact is exactly the route's budget change. For a send-transfer the route removed from cash the positive amount the dialog announces as added. |
| MarketsPage.ToggleSortOrder | app/markets/page.tsx:254 | The sort button flips asc ↔ desc and touches nothing else. |
| MarketsPage.ToggleTwice | app/markets/page.tsx:254 | Two presses restore the view. |
| MarketsPage.ChangeOrder | app/markets/page.tsx:160-166 | Both changePercent comparators are total preorders. |
| MarketsPage.FilteredMarkets | app/markets/page.tsx:153-166 | The result is a permutation of the rows whose market passes the select ("all" or equal) and whose lowercased symbol or name contains the term. changePercent is non-decreasing in asc mode and non-increasing in desc mode. |
| MarketsPage.InitialViewShowsAll | app/markets/page.tsx:153-166 | In the opening view (empty search, "all") the table is a reordering of all markets. |
| MarketsPage.ToggleKeepsRows | app/markets/page.tsx:153-166 | Flipping the order shows the same rows. |

## Left out

- React rendering, JSX, animation, dialogs, toasts, keyboard and mouse listeners, and body-scroll locking. Only the pure functions inside the components are modelled.
- Next.js plumbing (`NextResponse`, JSON bodies, HTTP status codes). Outcomes are `Result` values; a refusal is a `Rejection`.
- The 500 responses for JSON parse errors and thrown exceptions: the model has no failing I/O.
- localStorage persistence in the grid, the watchlist, the item form and the settings. Only the list updates are modelled.
- `uuidv4()` and `new Date()`: they are the `freshId`/`now` parameters, with id freshness as a precondition. ISO date strings become integer timestamps.
- JavaScript numbers: `parseFloat`, `toFixed`, `toLocaleString`, NaN (including a missing price slipping past the route's check) and float rounding. Money is an exact `real`, so amounts such as 178.72 are exact.
- TransactionsRoute.Process: a request `type` is one of buy, sell and transfer or missing. The route also accepts any other non-empty string. Such a request changes neither cash, investments nor positions, but the route still recomputes totalBalance as cash + investments (which alters an unbalanced budget) and prepends the row. That case is not modelled.
- TransactionsRoute.Process: a transfer direction other than send or receive (for example "SEND") is not modelled; `Direction` has only those two values. The route skips the affordability gate for such a transfer and adds its value to cash, as for a receive.
- Unicode: `toLowerCase` lowercases ASCII letters only, `trim` strips ASCII white space only, and `localeCompare` is code-unit lexicographic order.
- SortRows, SortedData, FilteredStocks, FilteredMarkets and Query are proved to return a sorted permutation. Tie order (sort stability) is not stated.
- TransactionHistory.Displayed: states membership and the limit bound only; the order of the displayed rows follows from SortRows, Search and ApplyLimit but is not restated.
- The stock catalogue, `allStocksData`, the markets table and the mock transaction lists are data. The functions take them as parameters; only the route's seeded ledger and budget are written out.
- `handleAssetChange` and the plain `handleChange`/`handleSelectChange` field setters of the item form: each writes one field and has no logic of its own.
- The grid's `getUniqueValues`, `getRiskBadgeColor` and date formatting, the confirmation dialog's icon pickers, and the history's status badge: presentational lookups.
- The search-box setters (`setSearchTerm`) of every component: a search change does not reset the grid's page, and the model keeps that (only filter and page-size changes reset it).
- app/api/transactions/[id]/route.ts, lib/api.ts, context/user-context.tsx (network clients), lib/pdf-generator.ts and the translation table are not part of this model.
- StockSymbols.SymbolsBySector: groups are listed in order of first appearance. A JavaScript object lists integer-like keys first. A sector named like an inherited property ("constructor", "toString") makes the source's `push` throw. Neither is modelled.
- Concurrency: the route's globals are threaded explicitly through `Submit` and `Replay`.

## Findings

| source | as written | input that shows it | evidently intended | confidence | as-written member | corrected member |
|---|---|---|---|---|---|---|
| app/api/transactions/route.ts:166-178 | The gate for a send-transfer compares `amount × 1` with cash, but the row's value, and the amount deducted at line 229, is `amount × price`. | Cash 100; a send-transfer of amount 100 at price 2 passes the gate and leaves cash at −100. | A transfer moves currency one to one: the value checked is the value deducted, so cash never goes negative. | not executed | TransactionsRoute.SendTransferOverdraws | TransactionsRoute.ProcessCorrected |
