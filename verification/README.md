# Quick Cash Control, modelled in Dafny

Quick Cash Control is a small point-of-sale application. Its data lives in an
in-memory store (`fakeDb`) that holds three arrays (users, products, sales) and
three id counters. The store offers:

- create, read, update and delete for products;
- a stock decrement that clamps at zero and runs on every sale;
- a low-stock query and an inclusive date-range query over sales;
- two group-by-product aggregations, the period summary and the top products by revenue.

Around the store sit the pages' rules, each modelled here against the same data:

- the cashier's quantity guard, total and checkout;
- the product list's search, stock filter, badge and edit form;
- the sales page's period and date-range handling, totals, average and daily chart;
- the dashboard's summary cards and chart;
- the sign-in, sign-up and sign-out state machine over the current user;
- the sign-up form's password check;
- the CSV export and the percentage-change helper;
- the translation lookup with key fallback and the text-direction toggle.

The store is an immutable value `FakeDb.Store`. Every mutating call returns the
new store together with its result (`Step`). Money is `int` (cents). The average
sale and the percentage change are `real`. Timestamps are `int` milliseconds.
Everything the program reads from the clock or from calendar code enters as a
parameter. That covers "now", a window start, start and end of day, "n days
ago", and a sale's hour, weekday name or "MM/dd" key. JavaScript's
`Array.prototype.sort` is stable, so every sort in the program is modelled by one
stable insertion sort on an integer key (`Sorting.SortBy`). Descending sorts use
the negated key. Accumulating into an object or `Map` keeps the order in which
keys were first met, and all of those accumulations are one generic
`Grouping.GroupBy`. It is proved against an independent reference: the distinct
keys in first-seen order (`Grouping.Keys`) and the sales carrying each key
(`Grouping.Matching`).

Modules follow the program's files:

| module | file |
|---|---|
| `Model` | the record types of `scr/lib/types.ts` |
| `FakeDb`, `StoreProps` | `scr/lib/fakeDb.ts` |
| `Helpers` | `scr/lib/helpers.ts` |
| `Cashier` | `scr/pages/Cashier.tsx` |
| `ProductsPage` | `scr/pages/Products.tsx` |
| `SalesPage` | `scr/pages/Sales.tsx` |
| `Dashboard` | `scr/pages/Dashboard.tsx` |
| `Auth` | `scr/contexts/AuthContext.tsx` |
| `RegisterPage` | `scr/pages/Register.tsx` |
| `Lang` | `scr/contexts/LangContext.tsx` |

`Seqs`, `Sorting` and `Grouping` are the shared sequence, sort and group-by
definitions.

Behaviours of the program that the model keeps as written:

- The store's `users.create` and `auth.register` do not check for a duplicate
  email. Only the sign-up handler of the auth context does.
- A failed sign-in leaves whoever was signed in still signed in.
- The cashier judges stock against its own product snapshot. With a stale
  snapshot the store's clamp at zero does fire.
- With a negative alert level, a product can count as both "out of stock" and
  "in stock".
- Editing a product with alert level 0 shows 5, because of `lowStockAlert || 5`.
- The dashboard chart groups every sale, whatever period its mode names.
- The sales chart sorts by month and day only, so two years interleave.
- The CSV export quotes only fields with a comma or a double quote. Line breaks
  are left as they are, so the read-back guarantee is stated line by line.

## Model

| member | source | states |
|---|---|---|
| FakeDb.Seeded | scr/lib/fakeDb.ts:7-147 | the seeded store has 2 users, 6 products and 5 sales, counters 2/6/5, and every id is at most its counter |
| FakeDb.FindUserByEmail | scr/lib/fakeDb.ts:175-178 | a user is found exactly when one has that email, and it is the first stored user with that email |
| FakeDb.Login | scr/lib/fakeDb.ts:158-163 | a user is returned exactly when one has both that email and that password, and it is the first stored user with both |
| FakeDb.CreateUser | scr/lib/fakeDb.ts:185-190 | the new user gets the user counter plus one and is appended, only that counter moves, and products and sales are untouched |
| FakeDb.ProductIndex | scr/lib/fakeDb.ts:217 | `findIndex`: the first position holding the id, or none exactly when no product has it |
| FakeDb.FindProduct | scr/lib/fakeDb.ts:199-202 | a product is found exactly when one has that id, and it is the first stored product with that id |
| FakeDb.CreateProduct | scr/lib/fakeDb.ts:204-211 | the new product gets the product counter plus one and is appended, and only that counter moves |
| FakeDb.UpdateProduct | scr/lib/fakeDb.ts:213-223 | an unknown id gives null and the same store; a known id has its record replaced in place by the data under the same id, and nothing else changes |
| FakeDb.RemoveProduct | scr/lib/fakeDb.ts:225-229 | true exactly when the id was present; afterwards no product has it, every other product remains, and users, sales and counters are untouched |
| FakeDb.RemoveKeepsOrder | scr/lib/fakeDb.ts:227 | the products left after a removal keep their order |
| FakeDb.LowStock | scr/lib/fakeDb.ts:231-235 | the products with 0 < quantity <= alert level, all of them and only them, as a subsequence of the store's list |
| FakeDb.UpdateStock | scr/lib/fakeDb.ts:241-257 | an unknown id gives null and the same store; a known id sets quantity to max(0, q - amount), stamps updatedAt, and changes nothing else |
| FakeDb.FindAllSales | scr/lib/fakeDb.ts:262-266 | the same sales as stored, newest first, with sales of equal date in store order |
| FakeDb.CreateSale | scr/lib/fakeDb.ts:273-282 | the sale gets the sale counter plus one and is appended, and the products are those of `updateStock(productId, quantity)`, never refused for lack of stock |
| FakeDb.SalesByDateRange | scr/lib/fakeDb.ts:284-299 | a permutation of the stored sales with from <= date <= to, both ends included, newest first, with sales of equal date in store order |
| FakeDb.SummariesRevenue | scr/lib/fakeDb.ts:329-352 | turning groups into product summaries keeps their revenue total |
| StoreProps.CreateUserFresh | scr/lib/fakeDb.ts:185-190 | a new user's id exceeds every stored user id, and the store stays valid |
| StoreProps.CreateProductFresh | scr/lib/fakeDb.ts:204-211 | a new product's id exceeds every stored product id, and the store stays valid |
| StoreProps.CreateSaleFresh | scr/lib/fakeDb.ts:273-282 | a new sale's id exceeds every stored sale id, and the store stays valid |
| StoreProps.SuccessiveProductIdsIncrease | scr/lib/fakeDb.ts:207 | two creations in a row hand out increasing ids |
| StoreProps.UpdateKeepsValid | scr/lib/fakeDb.ts:213-223 | an update keeps ids increasing and below the counter |
| StoreProps.UpdateStockKeepsValid | scr/lib/fakeDb.ts:241-257 | a stock change keeps ids increasing and below the counter |
| StoreProps.RemoveKeepsValid | scr/lib/fakeDb.ts:225-229 | a removal keeps ids increasing and below the counter |
| StoreProps.UpdateReplacesOnlyThatId | scr/lib/fakeDb.ts:213-223 | after an update, looking up the id gives the new record and looking up any other id gives what it gave before |
| StoreProps.FilterDropsOne | scr/lib/fakeDb.ts:227 | with distinct ids, filtering out a present id shortens the list by exactly one |
| StoreProps.RemoveOnce | scr/lib/fakeDb.ts:225-229 | removing a present id drops exactly one product, and a second removal of the same id returns false |
| StoreProps.ProductIndexSamePattern | scr/lib/fakeDb.ts:217 | `findIndex` depends only on where the id occurs |
| StoreProps.FindAfterReplace | scr/lib/fakeDb.ts:220-221 | after replacing the record at an id's index, that id finds the new record and every other id finds what it found before |
| StoreProps.SaleDecrementsStock | scr/lib/fakeDb.ts:251 | a sale of a stored product leaves it with max(0, q - quantity) units, never negative, and every other product as it was |
| StoreProps.SaleOfUnknownProduct | scr/lib/fakeDb.ts:273-282 | a sale of an unknown product is still recorded and leaves the products unchanged |
| StoreProps.ByProductKeys | scr/lib/fakeDb.ts:329-352 | one summary entry per distinct product id, in first-seen order, no id twice |
| StoreProps.ByProductIds | scr/lib/fakeDb.ts:329-352 | the summary's ids are exactly the ids of the products sold |
| StoreProps.ByProductEntries | scr/lib/fakeDb.ts:329-352 | each entry's units and revenue are the sums over that product's sales |
| StoreProps.ByProductTotal | scr/lib/fakeDb.ts:322-352 | the entries' revenues add up to the total revenue |
| FakeDb.GetSummary | scr/lib/fakeDb.ts:301-359 | the count is that of the sales dated at or after the start, at most every sale, and all of them exactly when none is earlier; the breakdown's revenues add up to the total |
| StoreProps.SummaryTotals | scr/lib/fakeDb.ts:317-326 | the summary counts and sums exactly the sales dated at or after the start, with no upper bound |
| StoreProps.SummaryBreakdown | scr/lib/fakeDb.ts:317-358 | the breakdown has one entry per product sold in the window, none twice, each with its product's sums, and adds up to the summary's revenue |
| StoreProps.SummaryWindowMonotone | scr/lib/fakeDb.ts:317-319 | a later start never counts more sales |
| FakeDb.GetTopProducts | scr/lib/fakeDb.ts:361-391 | no more entries than products sold (and none repeated, by `StoreProps.TopProductsDistinct`), exactly min(limit, products sold) for a non-negative limit, highest revenue first |
| StoreProps.TopProductsOrder | scr/lib/fakeDb.ts:361-391 | min(limit, products sold) entries, each a real product summary, highest revenue first |
| StoreProps.TopProductsDistinct | scr/lib/fakeDb.ts:365-389 | no product appears twice among the top products, since they come from the keys of a `Map` |
| StoreProps.TopProductsAreTop | scr/lib/fakeDb.ts:361-391 | no product left out of the top list earned more than one kept in it |
| StoreProps.TopProductsTiesStable | scr/lib/fakeDb.ts:384-386 | products with equal revenue keep their first-sold order |
| Sorting.SortBy | scr/lib/fakeDb.ts:263-265 | the stable sort returns a permutation of its input, ordered by the key |
| Sorting.SortByStable | scr/lib/fakeDb.ts:263-265 | elements with equal keys keep their relative order |
| Sorting.SortByConstantKey | scr/pages/Dashboard.tsx:124 | a comparator that always answers 0 leaves the list as it is |
| Sorting.SortBySum | scr/pages/Sales.tsx:117-125 | sorting does not change a sum over the list |
| Grouping.KeyListed | scr/pages/Sales.tsx:103-109 | a key gets an entry exactly when some sale carries it |
| Grouping.KeysDistinct | scr/pages/Sales.tsx:103-109 | no key gets two entries |
| Grouping.KeysSpec | scr/pages/Sales.tsx:99-114 | the reference key list holds exactly the keys some sale carries, each once |
| Grouping.GroupByKeys | scr/pages/Sales.tsx:99-114 | the accumulation has one entry per distinct key, in first-seen order |
| Grouping.GroupByEntries | scr/pages/Sales.tsx:99-114 | every entry's revenue and units are the sums over the sales with its key |
| Grouping.GroupByTotals | scr/pages/Sales.tsx:99-114 | the entries' revenue and units add up to those of all the sales |
| Helpers.GenerateCsv | scr/lib/helpers.ts:89-106 | the export is the header line then one CRLF-ended line per record, in order; with no records it is the header line alone |
| Helpers.RowLinesAppend | scr/lib/helpers.ts:94-103 | one more record adds exactly one more line at the end |
| Helpers.CellTexts | scr/lib/helpers.ts:95-101 | one cell per header, in header order, missing values written as empty |
| Helpers.ReadQuotedBack | scr/lib/helpers.ts:98-100 | un-escaping a quoted, escaped string gives back the string |
| Helpers.FieldBack | scr/lib/helpers.ts:96-100 | every readable cell the export writes reads back as the text of its value (see the `Helpers.CellText` line under "## Left out" for the others) |
| Helpers.RowRoundTrip | scr/lib/helpers.ts:95-102 | a written row splits back into the texts of its values, in order |
| Helpers.RowLineIsWrittenRow | scr/lib/helpers.ts:95-102 | a record's line is its looked-up values written as a row, ended by CRLF |
| Helpers.PercentageChange | scr/lib/helpers.ts:232-235 | 100 if the previous figure is 0 and the current one positive, else 0 there; otherwise the change relative to the previous figure, times 100 |
| Helpers.PercentageChangeInverse | scr/lib/helpers.ts:234 | applying the change to the previous figure gives back the current one |
| Helpers.PercentageChangeSign | scr/lib/helpers.ts:234 | against a positive previous figure the change is positive exactly on a rise, and zero exactly when the figures are equal |
| Cashier.Opened | scr/pages/Cashier.tsx:49-63 | an opened page holds the store's products, no selection and quantity 1 |
| Cashier.SelectedProduct | scr/pages/Cashier.tsx:79-81 | the snapshot's product with the chosen id; none without a choice or when no product has the id |
| Cashier.CalculateTotal | scr/pages/Cashier.tsx:70-74 | 0 without a found product, otherwise price times quantity |
| Cashier.HandleQuantityChange | scr/pages/Cashier.tsx:84-88 | the quantity changes only to a value between 1 and the chosen product's stock; nothing else changes |
| Cashier.QuantityChangeAccepted | scr/pages/Cashier.tsx:84-88 | a new value is taken exactly when a product is chosen and the value is in 1..stock |
| Cashier.SaleFor | scr/pages/Cashier.tsx:114-121 | the sale handed to the store carries the product's id and price, the chosen quantity and the page's clock reading as its date |
| Cashier.Checkout | scr/pages/Cashier.tsx:91-150 | no product or a quantity outside 1..stock is refused and creates no sale; otherwise one sale with the product's id, name and price, the quantity, total = price times quantity, dated by the page's clock reading, is appended; the stock change is stamped by the store's own later reading; and the form resets |
| Cashier.CheckoutTotalConsistent | scr/pages/Cashier.tsx:114-121 | a recorded sale's total is unit price times a positive quantity |
| Cashier.CheckoutResetsForm | scr/pages/Cashier.tsx:126-131 | after a sale nothing is chosen, the total shows 0 and the list is reloaded from the store |
| Cashier.CheckoutNeverClamps | scr/pages/Cashier.tsx:101-121 | while the snapshot matches the store, a sale takes exactly the sold units off the stock, never below 0, stamps the product with the store's clock reading, and leaves other products alone |
| Cashier.StaleSnapshotClampsToZero | scr/pages/Cashier.tsx:101-121 | with a snapshot showing more stock than the store has, the sale still goes through and the store's stock drops to 0 |
| Cashier.OutOfStockNeverSells | scr/pages/Cashier.tsx:197 | a product with no stock, which the drop-down disables, is refused at checkout and the store is untouched |
| Cashier.FirstSaleAtOneUnit | scr/pages/Cashier.tsx:91-130 | on a fresh page any product with stock sells one unit as soon as it is chosen |
| ProductsPage.ContainsSpec | scr/pages/Products.tsx:230-231 | `includes` holds exactly when the term occurs at some position |
| ProductsPage.ContainsEmpty | scr/pages/Products.tsx:230-231 | every text includes the empty term |
| ProductsPage.FilteredProducts | scr/pages/Products.tsx:228-244 | exactly the products matching both the search and the stock filter |
| ProductsPage.FilteredKeepsOrder | scr/pages/Products.tsx:228 | the filtered list keeps the products' order |
| ProductsPage.EmptySearchShowsAll | scr/pages/Products.tsx:228-244 | with no search term and filter "all" every product shows |
| ProductsPage.LowFilterIsLowStock | scr/pages/Products.tsx:236 | the "low" filter gives the same list as the store's low-stock query |
| ProductsPage.CategoriesPartition | scr/pages/Products.tsx:234-241 | every product is low, out of stock or in stock, and with a non-negative alert level exactly one of them |
| ProductsPage.NegativeAlertOverlap | scr/pages/Products.tsx:238-240 | with a negative alert level an empty product is both out of stock and in stock |
| ProductsPage.CategoryCountsAddUp | scr/pages/Products.tsx:234-241 | with no search term and non-negative alert levels the three filters' counts add up to the product count |
| ProductsPage.StockBadge | scr/pages/Products.tsx:308-320 | the "low stock" badge shows exactly for the products of the "low" filter, and no badge exactly for those of the "in stock" filter |
| ProductsPage.BadgeMatchesFilter | scr/pages/Products.tsx:308-320 | a badge shows exactly when quantity <= alert level; it reads "out of stock" when quantity <= 0 and "low stock" otherwise, in line with the filters |
| ProductsPage.EditForm | scr/pages/Products.tsx:110-121 | the form takes the product's fields, with alert level 0 replaced by 5 |
| ProductsPage.SaveProduct | scr/pages/Products.tsx:124-171 | an edit updates the product under its id keeping its createdAt; a new product is created with updatedAt from the first clock reading and createdAt from the second |
| ProductsPage.EditSaveRoundTrip | scr/pages/Products.tsx:110-141 | opening a stored product and saving it unchanged stores it back with only updatedAt (and a 0 alert level) changed |
| ProductsPage.SaveNewAppends | scr/pages/Products.tsx:130-150 | saving a new product appends it under a fresh id with the form's fields, updatedAt from the first clock reading and createdAt from the second |
| SalesPage.InitialRange | scr/pages/Sales.tsx:61-65 | the page opens on the "week" period, ending now |
| SalesPage.InitialIsWeekPreset | scr/pages/Sales.tsx:61-65 | the opening range is the one choosing the "week" preset would set |
| SalesPage.HandlePeriodChange | scr/pages/Sales.tsx:141-154 | the period is recorded; a preset sets from to "days ago" and to to now, and "custom" leaves the range alone |
| SalesPage.HandlePeriodChangeFromMidnight | scr/pages/Sales.tsx:141-154 | as above, but a preset range starts at midnight of its first day |
| SalesPage.EarlierStartShowsMore | scr/lib/fakeDb.ts:284-299 | moving a range's start earlier keeps every sale it showed and never shows fewer |
| SalesPage.LongerPeriodShowsMore | scr/pages/Sales.tsx:47-53 | a preset going further back shows every sale a shorter one shows |
| SalesPage.TodayPeriodShowsOnlyNow | scr/pages/Sales.tsx:141-154 | as written, "Today" shows only sales dated exactly now and none from earlier in the day |
| SalesPage.TodayFromMidnightShowsToday | scr/pages/Sales.tsx:141-154 | from midnight, "Today" shows every sale of the day up to now |
| SalesPage.HandleDateSelect | scr/pages/Sales.tsx:157-171 | both ends widen to start and end of day and switch to "custom"; one end replaces only that end and keeps the period |
| SalesPage.PickedRangeCoversDays | scr/pages/Sales.tsx:157-171 | a picked range shows every sale between the picked instants |
| SalesPage.SalesTotals | scr/pages/Sales.tsx:90-92 | the count is the number of loaded sales |
| SalesPage.AverageSale | scr/pages/Sales.tsx:468-470 | revenue over count when there are sales, else 0 |
| SalesPage.LoadedTotals | scr/pages/Sales.tsx:86-92 | the page's totals are those of the store's sales in the range |
| SalesPage.AverageBounded | scr/pages/Sales.tsx:468-470 | with non-negative totals the average lies between 0 and the revenue |
| SalesPage.NonNegativeRevenue | scr/pages/Sales.tsx:90 | non-negative sale totals give a non-negative revenue |
| SalesPage.RankAgreesWithComparator | scr/pages/Sales.tsx:117-125 | on valid days the month-then-day comparator and the sort key agree in sign |
| SalesPage.BucketsCorrect | scr/pages/Sales.tsx:99-114 | one bar per distinct day, each with the revenue and units of that day's sales |
| SalesPage.ChartTotals | scr/pages/Sales.tsx:99-125 | the bars add up to the page's revenue and units |
| SalesPage.BucketDaysFromSales | scr/pages/Sales.tsx:99-114 | every bar's day is some sale's day |
| SalesPage.ChartData | scr/pages/Sales.tsx:99-125 | one bar per distinct day, a rearrangement of the day buckets, sorted by month and day |
| SalesPage.ChartOrdered | scr/pages/Sales.tsx:117-125 | the bars come out by month, then day, the year ignored |
| Dashboard.LoadSummary | scr/pages/Dashboard.tsx:44-84 | the cards show the product count, at most five top products, and today's revenue of the sales since the day began |
| Dashboard.CardsNested | scr/pages/Dashboard.tsx:48-59 | with nested windows the day counts no more sales than the week, nor the week than the month |
| Dashboard.CardsContents | scr/pages/Dashboard.tsx:48-74 | the low-stock card lists exactly the low-stock products, and the top card the best sellers of all time, highest revenue first |
| Dashboard.ChartData | scr/pages/Dashboard.tsx:91-125 | one bucket per distinct key of the mode, a rearrangement of the first-seen buckets, ordered by the mode's sort key |
| Dashboard.StoreChart | scr/pages/Dashboard.tsx:77-125 | the chart drawn from every stored sale is empty exactly when the store holds no sale |
| Dashboard.ChartEmptyIffNoSales | scr/pages/Dashboard.tsx:91-93 | the chart is empty exactly when there are no sales |
| Dashboard.ChartRevenue | scr/pages/Dashboard.tsx:95-125 | the buckets add up to the revenue of all the sales |
| Dashboard.BucketsCorrect | scr/pages/Dashboard.tsx:95-117 | one bucket per distinct key, each with the sums over the sales carrying it |
| Dashboard.TodayByHour | scr/pages/Dashboard.tsx:120-123 | in "today" mode the buckets are hours in increasing order |
| Dashboard.OtherModesKeepFirstSeen | scr/pages/Dashboard.tsx:124 | in week and month mode the buckets keep first-seen order |
| Dashboard.StoreChartRevenue | scr/pages/Dashboard.tsx:77-95 | the chart adds up to every recorded sale, whatever period its mode names |
| Auth.SignIn | scr/contexts/AuthContext.tsx:37-64 | success exactly when a stored user has that email and password, which then becomes current; a failure changes nothing |
| Auth.Register | scr/contexts/AuthContext.tsx:66-95 | refused exactly when the email is taken, changing nothing; otherwise one user is created and signed in |
| Auth.AuthenticatedTracksSession | scr/contexts/AuthContext.tsx:37-107 | `isAuthenticated` becomes true on a successful sign-in or sign-up, false on sign-out, and stays as it was after a failure |
| Auth.SignOut | scr/contexts/AuthContext.tsx:97-103 | nobody is signed in afterwards and the store is untouched |
| Auth.RegisterKeepsEmailsDistinct | scr/contexts/AuthContext.tsx:68-78 | sign-up keeps stored emails pairwise distinct |
| Auth.StoreCreateAllowsDuplicateEmail | scr/lib/fakeDb.ts:165-170 | the store itself adds a user whose email is already taken |
| Auth.RegisterThenSignIn | scr/contexts/AuthContext.tsx:66-95 | a user who just signed up can sign in with the same email and password |
| Auth.SignOutSignIn | scr/contexts/AuthContext.tsx:37-103 | signing out and back in restores the session |
| RegisterPage.ValidatePassword | scr/pages/Register.tsx:36-47 | a mismatch is reported first; matching passwords under 6 characters are too short; otherwise valid |
| RegisterPage.HandleSubmit | scr/pages/Register.tsx:49-73 | a failed check sets its error, does not sign up and does not navigate |
| RegisterPage.SubmitNavigatesIff | scr/pages/Register.tsx:49-73 | the page moves on exactly when the password check passes and sign-up succeeds |
| RegisterPage.BadPasswordNeverRegisters | scr/pages/Register.tsx:52-54 | a bad password never reaches sign-up |
| Lang.Translate | scr/contexts/LangContext.tsx:25-27 | the table's text for a key when it is present and non-empty, otherwise the key itself |
| Lang.TranslateNeverBlank | scr/contexts/LangContext.tsx:25-27 | a non-empty key never translates to an empty text |
| Lang.TranslateLocal | scr/contexts/LangContext.tsx:25-27 | a translation depends only on that key's entry |
| Lang.DefaultIsIdentity | scr/contexts/LangContext.tsx:11-15 | the default context translates every key to itself |
| Lang.DefaultToggleDirection | scr/contexts/LangContext.tsx:14 | outside a provider, toggling keeps the direction |
| Lang.DefaultToggleIsInert | scr/contexts/LangContext.tsx:14 | the default toggle is inert, and it differs from the provider's toggle on every state |
| Lang.Initial | scr/contexts/LangContext.tsx:22 | the provider starts right-to-left |
| Lang.ToggleDirection | scr/contexts/LangContext.tsx:30-32 | toggling flips the direction |
| Lang.ToggleTwice | scr/contexts/LangContext.tsx:30-32 | toggling twice restores the direction |

## Left out

- `async` and `Promise`: nothing in the store suspends, so every call is a plain function.
- `localStorage` persistence, JSON parsing of the saved user, toasts, loading flags, routing and every rendered element: none of it changes the modelled state.
- Dates and `Intl`: every clock reading (each `new Date()` is its own parameter, so a product's creation and update times and a sale's date and its stock stamp may differ), window starts, start and end of day, "n days ago", `getRandomDate` and the calendar keys ("MM/dd", "H:00", weekday names, "d/m") are parameters. The month rollover of the summary's window start is therefore not modelled.
- Floating-point rounding of prices and sums: money is whole cents.
- `users.findById` and `sales.findById` are lookups no modelled page calls. `products.findById` is `FakeDb.FindProduct`.
- `products.count` and `products.findAll` are one-line reads, `FakeDb.CountProducts` and `FakeDb.FindAllProducts`, used by the dashboard and the cashier.
- `handleDeleteProduct` only calls `products.remove` and reloads, and `FakeDb.RemoveProduct` covers the store side. The image upload (`FileReader`) is not modelled.
- The report and receipt HTML, the CSV download and `formatCurrency` and the other formatting helpers: text templating and browser APIs.
- Lower-casing for the product search is an uninterpreted function. Unicode case mapping is not modelled.
- String length is counted in characters. JavaScript counts UTF-16 code units, which differ only outside the basic plane.
- `Number` and `parseInt` parsing of form fields and chart labels, including `NaN`: inputs are already integers.
- Translation keys that collide with names on the object prototype: the table is a plain map.
- Helpers.CellText: a non-string value is carried as the text JavaScript prints for it, and only its comma- and quote-free forms are covered by `Helpers.RowRoundTrip`.
- Helpers.RowRoundTrip: stated per line, because a value containing a line break is written unquoted and splits the record.
- Helpers.PercentageChange: exact real arithmetic, not IEEE doubles.
- Dashboard.LoadSummary: the week and month cards are covered by `Dashboard.CardsNested` and `StoreProps.SummaryTotals`, not by its own ensures.

## Findings

| source | as written | input that shows it | evidently intended | confidence | as-written member | corrected member |
|---|---|---|---|---|---|---|
| scr/pages/Sales.tsx:141-154 | the "Today" preset sets `from` to a fresh clock reading taken after `today` (minus 0 days) and `to` to `today`, so the range holds at most the current instant | any sale made earlier today, e.g. one at 09:00 when the preset is chosen at 15:00, is not shown | the range starts at midnight of the first day, as `handleDateSelect` does with `setHours(0, 0, 0, 0)` | not executed | SalesPage.TodayPeriodShowsOnlyNow | SalesPage.TodayFromMidnightShowsToday |
