# Anna's Cafe admin dashboard: a verified model of its client-side logic

The dashboard is a thin front end over a hosted database with three tables:
`orders`, `menu` and `analysis` (revenue per calendar date). This project
models the logic in four of its parts and proves what that logic guarantees.

- **The live order board** (`components/LiveOrders.jsx`):
  - Rows of `orders` are normalised into orders. The `iteminfo` column is decoded, and the boolean flags default to false.
  - A local list mirrors the table through INSERT, UPDATE and DELETE change events.
  - Each order gets a total, and the view shows the orders not yet both paid and served.
  - Two "mark done" actions are guarded by per-order busy flags.
- **The menu manager** (`components/UpdateItem.jsx`):
  - The same mirror is kept over `menu`.
  - A search / category filter selects the items shown.
  - The add / edit form has its own state machine.
  - Add, update and delete requests are validated and guarded by busy flags.
  - A visibility toggle shows or hides an item.
- **The revenue analytics view** (`components/Analytics.jsx`):
  - Rows are grouped by day, month or year into periods sorted by key, each with its revenue and row count.
  - It computes the headline metrics: total revenue, number of rows, mean per distinct day, and the growth of the last 30 days over the 30 before them.
  - It lists the five best days and the years that have rows.
  - It filters the chart by year.
- **The sale recorder** (`components/analysis/analysis.js`): it adds a sale to today's row of `analysis`, or inserts that row.

Modules:

| module | file | role |
|---|---|---|
| `Wrappers` | wrappers.dfy | `Option` |
| `Seqs` | seqs.dfy | `filter`, a comparator `sort`, de-duplication, subsequences |
| `Text` | text.dfy | `toLowerCase`, `includes`, `localeCompare`, `String(n)`, `padStart`, `trim`, `parseInt` |
| `Dates` | dates.dfy | calendar dates, the period keys, instants in milliseconds |
| `Mirror` | mirror.dfy | the INSERT / UPDATE / DELETE reconciliation shared by both lists |
| `LiveOrders` | live_orders.dfy | the order board, with the class `OrderBoard` |
| `Menu` | menu.dfy | the menu manager, with the class `MenuManager` |
| `Analytics` | analytics.dfy | the analytics view |
| `DailyRevenue` | revenue.dfy | the sale recorder, with the class `RevenueTable` |

How the model maps the code:

- **Component state.** The state a React component keeps in `useState` is a Dafny class. Its `useState` initial values are the constructor, and each event handler is a method that reassigns the fields.
- **Async handlers.** A handler that awaits a request is split in two methods:
  - a `Start…` / `Submit…` method runs up to the request. It returns the write it sends as a value, and it raises the busy flag;
  - a `Finish…` method takes the request's outcome as a parameter and runs the rest, including the `finally` block.
- **Buttons.** A button's `disabled` condition is a predicate of the class (`…Offered`). The `Start` methods prove the button is closed afterwards.
- **Pure expressions.** `filter`, `map`, `reduce` and `Set` expressions are functions. Their properties are proved as lemmas.
- **In-place dictionaries.** The two analytics computations that fill a dictionary in a `forEach` (`processDataByPeriod`, `getTopPerformingDays`) are methods. They loop over the rows while updating a `map`, keep loop invariants, and are proved against ghost specifications (`IsGrouping`, `IsTopDays`). Those specifications have their own lemmas: the totals add up, the result is unique, and it does not depend on row order.

Two points of the code that the model keeps as written:

- A realtime INSERT appends the new row without looking for its id, so an INSERT delivered twice leaves two rows with the same id (`Mirror.InsertTwiceDuplicates`).
- The period `switch` of `processDataByPeriod` falls back to the day key. The period selector offers only day, month and year, so `Dates.Period` has those three.

## Model

| member | source | states |
|---|---|---|
| Seqs.Filter | components/LiveOrders.jsx:151-153 | `filter` keeps exactly the elements satisfying the predicate, as an order-preserving subsequence no longer than its input |
| Seqs.FilterCounts | components/LiveOrders.jsx:151-153 | `filter` keeps each element that satisfies the predicate as many times as its input holds it and drops every other one: the result's multiset is contained in the input's |
| Seqs.FilterKeepsAll | components/UpdateItem.jsx:238-243 | a filter every element passes returns its input unchanged |
| Seqs.FilterIdempotent | components/UpdateItem.jsx:238-243 | filtering a filtered list again changes nothing |
| Seqs.FilterKeepsOrder | components/Analytics.jsx:133-135 | a filter keeps any strict pairwise order of its input, so a filtered ascending chart stays ascending |
| Seqs.SortBy | components/Analytics.jsx:73 | `sort` with a total-preorder comparator returns a permutation of its input (same multiset, same length) that is sorted by the comparator |
| Seqs.Dedup | components/Analytics.jsx:130 | `[...new Set(xs)]`: no duplicates, and an element occurs in it exactly when it occurs in the input |
| Text.Lower | components/UpdateItem.jsx:239-240 | `toLowerCase` keeps the length, leaves no upper-case letter, turns each upper-case letter into its lower-case one and changes no other character |
| Text.ContainsIffOccurs | components/UpdateItem.jsx:239-240 | `s.includes(t)` holds exactly when `t` occurs in `s` at some offset |
| Text.ContainsEmpty | components/UpdateItem.jsx:239-240 | every string includes the empty search term |
| Text.StrLessIrreflexive | components/Analytics.jsx:73 | no key sorts strictly before itself |
| Text.StrLessAsymmetric | components/Analytics.jsx:73 | two keys are never each strictly before the other |
| Text.StrLessTotal | components/Analytics.jsx:73 | of two different keys one sorts strictly first |
| Text.StrLessTransitive | components/Analytics.jsx:73 | the key order is transitive |
| Text.DigitStringOrder | components/Analytics.jsx:73 | on digit strings of equal length the key order and equality are those of the numbers they denote |
| Text.NatToString | components/Analytics.jsx:55 | decimal printing yields a non-empty digit string denoting the number |
| Text.PadStart | components/Analytics.jsx:52 | `padStart(width, c)` reaches the width, ends with the original string and is filled with `c` before it |
| Text.Pad2 | components/Analytics.jsx:52 | the two-digit zero-padded month is two digits denoting the month |
| Text.IntToString | components/UpdateItem.jsx:218 | `toString` of a non-negative number is a non-empty digit string denoting it; of a negative one, a minus sign followed by the digits of its magnitude |
| Text.TrimStart | components/UpdateItem.jsx:143 | leading white space is removed, and only that: the result is a suffix that starts with a non-space |
| Text.TrimEnd | components/UpdateItem.jsx:143 | trailing white space is removed, and only that: the result is a prefix that ends with a non-space |
| Text.Trim | components/UpdateItem.jsx:143 | `trim` returns a stretch of its input that neither starts nor ends with white space, with only white space cut off before and after it |
| Text.TrimIdempotent | components/UpdateItem.jsx:143 | trimming a trimmed name changes nothing |
| Text.LeadingDigits | components/UpdateItem.jsx:144 | the digits `parseInt` reads are the longest run of digits at the start |
| Text.ParseInt | components/UpdateItem.jsx:144 | `parseInt` of empty text is `NaN`; of a digit string, the number it denotes; of text starting with anything but white space, a sign or a digit, `NaN` |
| Text.ParseIntOfDigitStart | components/UpdateItem.jsx:144 | text that starts with a digit reads as the number its leading digits denote |
| Text.LeadingDigitsUpTo | components/UpdateItem.jsx:144 | the digits `parseInt` reads stop at the first non-digit after them |
| Text.ParseIntOfIntToString | components/UpdateItem.jsx:218 | `parseInt(n.toString())` gives back `n`, negative numbers included |
| Text.ParseIntTruncatesDecimals | components/UpdateItem.jsx:144 | `parseInt` stops at the decimal point: any digit string followed by a point and anything else reads as the digit string's number, so a price typed as "12.50" is stored as 12 |
| Dates.YearKey | components/Analytics.jsx:55 | the year key is four digits denoting the year |
| Dates.YearKeyOrder | components/Analytics.jsx:55 | year keys sort and compare as the years do |
| Dates.Pad2Order | components/Analytics.jsx:52 | two-digit padded numbers sort and compare as the numbers do |
| Dates.MonthKeyOrder | components/Analytics.jsx:52 | `YYYY-MM` keys sort as the months do and are equal exactly for the same month |
| Dates.DashConcat3 | components/Analytics.jsx:49 | dash-joined keys whose first two parts have fixed widths compare part by part |
| Dates.DayKeyOrder | components/Analytics.jsx:49 | `YYYY-MM-DD` keys sort as the days do and are equal exactly for the same day |
| Dates.KeyOrderIsChronological | components/Analytics.jsx:47-73 | for every period, sorting groups by key sorts them chronologically (both directions), and two rows share a key exactly when they fall in the same period |
| Dates.YearKeyIsPrefix | components/Analytics.jsx:47-59 | every period key starts with the row's year key |
| Dates.KeyStartsWithYear | components/Analytics.jsx:133-135 | a day or month key starts with the year's digits exactly when the row is in that year |
| Dates.DayNumberCalibration | components/Analytics.jsx:88-95 | the millisecond clock underlying the 30-day windows starts at 1970-01-01, advances one day per date within a month, and is continuous over a month end, a leap day and a year end |
| Mirror.ReplaceKey | components/LiveOrders.jsx:92-97 | UPDATE keeps the length; each row with the new row's id becomes the new row, every other row stays where and what it was |
| Mirror.InsertAddsKey | components/LiveOrders.jsx:90-91 | INSERT adds one more row with the new row's id, whether or not the id is already present |
| Mirror.InsertTwiceDuplicates | components/UpdateItem.jsx:78-79 | a redelivered INSERT leaves two more rows with that id: the list is not de-duplicated |
| Mirror.ReplaceAbsentIsIdentity | components/LiveOrders.jsx:92-97 | UPDATE of an id that no row has leaves the list unchanged |
| Mirror.ReplaceIdempotent | components/UpdateItem.jsx:83-88 | a redelivered UPDATE changes nothing more |
| Mirror.RemoveKeySpec | components/LiveOrders.jsx:98-99 | after DELETE no row has the id, every other row is kept in order, and the length drops by the number of rows that had it |
| Mirror.RemoveAbsentIsIdentity | components/UpdateItem.jsx:92-93 | DELETE of an absent id leaves the list unchanged |
| Mirror.RemoveIdempotent | components/LiveOrders.jsx:98-99 | a redelivered DELETE changes nothing more |
| Mirror.ReplaceThenRemove | components/LiveOrders.jsx:92-99 | an UPDATE followed by a DELETE of the same id leaves what the DELETE alone would |
| LiveOrders.ParseItemInfo | components/LiveOrders.jsx:15-29 | a value that is not text is returned as it is; text is decoded; text that fails to decode yields the empty list |
| LiveOrders.Flag | components/LiveOrders.jsx:58-59 | the flag defaulted to false is true exactly when the column holds true (missing, null and false all give false) |
| LiveOrders.ParseOrder | components/LiveOrders.jsx:81-88 | id, creation time and table number are copied; each flag is true exactly when its column holds true; the items are the parsed `iteminfo` |
| LiveOrders.ParseOrderOfAsRaw | components/LiveOrders.jsx:55-62 | normalising loses nothing: an order read back from its own row is the same order, for any decoder |
| LiveOrders.Total | components/LiveOrders.jsx:146-147 | an order without items totals 0, and non-negative prices and quantities give a non-negative total |
| LiveOrders.OrdersWithTotals | components/LiveOrders.jsx:145-148 | one priced order per order, in the same order, each carrying its order unchanged and that order's total |
| LiveOrders.TotalConcat | components/LiveOrders.jsx:145-148 | the total is additive over the item list, hence the sum of price times quantity over its items |
| LiveOrders.TotalBase | components/LiveOrders.jsx:145-148 | the empty order totals 0, and one item totals its price times its quantity |
| LiveOrders.ActiveOrders | components/LiveOrders.jsx:151-153 | the shown orders are an order-preserving subsequence of the priced orders; none is both paid and served; every priced order not both paid and served is shown as many times as it is listed |
| LiveOrders.ApplyWrite | components/LiveOrders.jsx:115-118 | the only writes set `payment_done` or `order_done` to true, only on the written id, never to false; each leaves the other flag and every other column as they were |
| LiveOrders.CompletionIsPermanent | components/LiveOrders.jsx:111-143 | no write brings a completed order back to the active view, and the two writes together complete any order |
| LiveOrders.OrderBoard.constructor | components/LiveOrders.jsx:8-12 | the board starts with no orders and empty flag maps |
| LiveOrders.OrderBoard.FetchOrders | components/LiveOrders.jsx:45-64 | on success the list is every received row normalised, in the order received; on an error it stays as it was |
| LiveOrders.OrderBoard.ApplyChange | components/LiveOrders.jsx:90-99 | INSERT appends the parsed row; UPDATE replaces the rows with its id by the parsed row; DELETE removes the rows with the old id |
| LiveOrders.OrderBoard.StartPaymentDone | components/LiveOrders.jsx:111-118 | the order's payment flag is raised, no other entry changes, the write is `payment_done = true` for that id, and the button is closed for that id |
| LiveOrders.OrderBoard.FinishPaymentDone | components/LiveOrders.jsx:123-125 | whatever the outcome, the order's payment flag is lowered and no other id's flag changes |
| LiveOrders.OrderBoard.StartOrderDone | components/LiveOrders.jsx:128-135 | the order's flag is raised, the write is `order_done = true` for that id, and the button is closed for that id |
| LiveOrders.OrderBoard.FinishOrderDone | components/LiveOrders.jsx:140-142 | whatever the outcome, the order's flag is lowered and no other id's flag changes |
| Menu.InsertPayload | components/UpdateItem.jsx:142-146 | the insert carries the name with the white space at its ends cut off, the category as typed, and the price `parseInt` reads: `NaN` for an empty input, the number for a digit string |
| Menu.UpdatePayload | components/UpdateItem.jsx:172-176 | the update is for the given id and carries the trimmed name, the category and the parsed price as an insert does |
| Menu.EditForm | components/UpdateItem.jsx:216-220 | for a row with a price (a null one makes `toString` throw), the edit form holds the item's name and category, and a non-empty price text that `parseInt` reads back as the item's price |
| Menu.EditUnchangedKeepsPrice | components/UpdateItem.jsx:214-222 | for a row with a price, saving an edit form nobody changed writes back the item's own price, and passes validation exactly when name and category are not empty |
| Menu.Matches | components/UpdateItem.jsx:239-241 | an item matches exactly when the lower-cased term occurs at some offset of its lower-cased name or category, and its category is the selected one or 'all' is selected |
| Menu.MatchesIgnoresCase | components/UpdateItem.jsx:239-240 | a term matches exactly as its lower-case form does |
| Menu.FilteredItems | components/UpdateItem.jsx:238-243 | shown items are exactly those that match, each as many times as the menu lists it, in menu order |
| Menu.EmptySearchShowsAll | components/UpdateItem.jsx:238-243 | an empty search with 'all' selected shows the whole menu |
| Menu.CategoryFilterIsExact | components/UpdateItem.jsx:241 | with a category selected, only items of that category are shown |
| Menu.VisibilityWrite | components/UpdateItem.jsx:247-251 | the toggle writes, for that id, true exactly when the button shows 'Not Visible'; a null `Visibility` is written as true |
| Menu.ApplyVisibility | components/UpdateItem.jsx:250-251 | the visibility write sets `Visibility` to a non-null value on the row with its id only, and changes no other column |
| Menu.ToggleTwiceRestores | components/UpdateItem.jsx:247-251 | one press flips what the button shows and a second press shows the original state again; the row itself is restored exactly when its `Visibility` was set, and a null one ends as false after passing through true |
| Menu.MenuManager.constructor | components/UpdateItem.jsx:8-24 | the manager starts with no items, no flags, an empty form, nothing edited, the add form hidden and no messages |
| Menu.MenuManager.FetchItems | components/UpdateItem.jsx:43-59 | on success the items are the rows received; on an error they stay and the fetch error message is set |
| Menu.MenuManager.ApplyChange | components/UpdateItem.jsx:77-95 | INSERT appends the row, UPDATE replaces the rows with its id, DELETE removes the rows with the old id, each with its message |
| Menu.MenuManager.SetField | components/UpdateItem.jsx:123-128 | one form field takes the typed value and the other two are kept |
| Menu.MenuManager.StartAdding | components/UpdateItem.jsx:231-235 | the add form is shown, nothing is being edited, and the form is empty |
| Menu.MenuManager.CloseAddForm | components/UpdateItem.jsx:376 | the add form is hidden |
| Menu.MenuManager.StartEditing | components/UpdateItem.jsx:214-222 | the item is being edited and Edit is disabled; for a row with a price the form holds its name, its price as text and its category and the add form is hidden, while a null price throws in `toString` and leaves the form and the add form as they were |
| Menu.MenuManager.CancelEditing | components/UpdateItem.jsx:225-228 | nothing is being edited and the form is empty |
| Menu.MenuManager.SubmitAdd | components/UpdateItem.jsx:131-146 | an incomplete form sets "All fields are required", sends nothing and raises no flag; a complete one raises the `add` flag, sends the trimmed, parsed insert, and disables the submit button |
| Menu.MenuManager.FinishAdd | components/UpdateItem.jsx:148-158 | the `add` flag is lowered either way; success empties and hides the form; failure sets "Failed to add item" and keeps the form |
| Menu.MenuManager.SubmitUpdate | components/UpdateItem.jsx:162-177 | validated like an add; a complete form raises the item's flag, sends the update for that id, and disables Save |
| Menu.MenuManager.FinishUpdate | components/UpdateItem.jsx:179-189 | the item's flag is lowered either way; success leaves edit mode with an empty form; failure sets "Failed to update item" |
| Menu.MenuManager.StartDelete | components/UpdateItem.jsx:193-201 | a declined confirmation does nothing; a confirmed one raises `delete_<id>`, sends the delete, and disables Delete for that item |
| Menu.MenuManager.FinishDelete | components/UpdateItem.jsx:203-210 | the `delete_<id>` flag is lowered either way, with the success or the failure message |
| Analytics.Revenue | components/Analytics.jsx:80 | the revenue of no rows is 0, and it is never negative when no amount is |
| Analytics.SumNonNegative | components/Analytics.jsx:80 | a sum of non-negative weights is non-negative |
| Analytics.SumConcat | components/Analytics.jsx:80 | a sum over rows is additive over concatenation |
| Analytics.SumOfOnes | components/Analytics.jsx:70 | counting one per row gives the number of rows |
| Analytics.SumPermutation | components/Analytics.jsx:43-70 | a sum over rows does not depend on their order |
| Analytics.SumFilter | components/Analytics.jsx:98-99 | dropping rows that weigh nothing leaves a sum unchanged |
| Analytics.PeriodLeIsTotalPreorder | components/Analytics.jsx:73 | the comparator `a.period.localeCompare(b.period)` is a total preorder, so the sort is well defined |
| Analytics.ProcessDataByPeriod | components/Analytics.jsx:38-74 | no rows give no groups; otherwise one group per period that has rows, keys strictly ascending, each group with the revenue and the number of its period's rows |
| Analytics.GatherGroups | components/Analytics.jsx:41-71 | the `forEach` leaves one entry per key that has rows, listed once, in the order the first rows of the keys appear, holding the key's revenue and row count |
| Analytics.FirstSeenSpec | components/Analytics.jsx:61-64 | the position of a key's first row: within the rows when some row has the key, carrying it there, and no earlier row has it |
| Analytics.FirstKeysSpec | components/Analytics.jsx:61-64 | creating an entry when a key is first met lists every key of the rows once, in the order of their first rows |
| Analytics.GroupingSize | components/Analytics.jsx:61-67 | there are as many groups as periods with rows |
| Analytics.GroupsAddUp | components/Analytics.jsx:61-70 | the group amounts add up to the total revenue, and the counts to the number of rows |
| Analytics.GroupingIgnoresRowOrder | components/Analytics.jsx:43-73 | the grouping of rows is also the grouping of any reordering of them |
| Analytics.AscendingIsUnique | components/Analytics.jsx:73 | two strictly ascending key lists with the same keys are equal |
| Analytics.GroupingIsUnique | components/Analytics.jsx:73 | rows have only one grouping, so the sorted result does not depend on the dictionary's insertion order |
| Analytics.CalculateMetrics | components/Analytics.jsx:77-104 | no rows give all zeros; otherwise the total revenue, the number of rows, the mean of the revenue over the distinct dates, and the growth percentage of the last 30 days over the 30 before them, exactly 0 when the earlier window earned nothing |
| Analytics.Ratio | components/Analytics.jsx:85 | the mean times the number of days is the total |
| Analytics.Percent | components/Analytics.jsx:101 | the growth times the earlier revenue is 100 times the difference |
| Analytics.WindowsPartitionLast60Days | components/Analytics.jsx:88-96 | the two 30-day windows are disjoint, and their revenues add up to the revenue of the last 60 days |
| Analytics.TopPerformingDays | components/Analytics.jsx:107-123 | no rows give no days; otherwise up to five days, as many as there are, each with its summed revenue, no day twice, best first, and any day left out earned no more than the fifth |
| Analytics.TopByKey | components/Analytics.jsx:108-122 | the same ranking for any grouping key |
| Analytics.GatherDailyRevenue | components/Analytics.jsx:110-117 | the `forEach` leaves one entry per day that has rows, listed once, in the order the first rows of the days appear, with the day's revenue |
| Analytics.SortedDaysAreRanked | components/Analytics.jsx:119-121 | sorting the day entries keeps one entry per day with its revenue |
| Analytics.FirstFiveAreTop | components/Analytics.jsx:121-122 | the first five entries of the ranking are the top days |
| Analytics.YearColumn | components/Analytics.jsx:130 | the year column holds exactly the years that have rows |
| Analytics.AvailableYears | components/Analytics.jsx:130 | each year that has rows, exactly once, strictly newest first |
| Analytics.YearFilteredData | components/Analytics.jsx:133-135 | the yearly chart is kept whole; otherwise the kept groups are a subsequence of the chart, each starting with the year, and every group starting with the year is kept as many times as the chart lists it |
| Analytics.YearFilterIsGroupingOfYear | components/Analytics.jsx:133-135 | the yearly chart is shown whole; the daily or monthly chart filtered by a year is exactly the chart of that year's rows |
| Analytics.KeysMarkYear | components/Analytics.jsx:134 | a row's period key starts with `selectedYear.toString()` exactly when the row is in that year |
| Analytics.YearGroupsAreGrouping | components/Analytics.jsx:133-135 | for any key that marks the year, the groups kept by the year filter are the grouping of that year's rows |
| Analytics.YearGroupsKeys | components/Analytics.jsx:134 | the kept groups name exactly the periods of the year's rows |
| Analytics.YearRowsKeepTotal | components/Analytics.jsx:134 | a key that starts with the year gathers only rows of that year |
| DailyRevenue.Recorded | components/analysis/analysis.js:22-36 | after a sale, today's row is its old amount plus the sale, or a new row with the sale; the dates are the old ones and today; every other date's row is unchanged |
| DailyRevenue.SaleAddsAmount | components/analysis/analysis.js:22-39 | a recorded sale raises the table's total revenue by exactly its amount |
| DailyRevenue.SalesAccumulate | components/analysis/analysis.js:22-29 | two sales on one day leave the table as one sale of their sum would |
| DailyRevenue.RevenueTable.constructor | components/analysis/analysis.js:11-15 | the table holds the given rows |
| DailyRevenue.RevenueTable.RecordSale | components/analysis/analysis.js:3-40 | a failed lookup writes nothing, a failed write changes nothing, and otherwise the table becomes the recorded one |

## Left out

- Rendering: JSX, styles, the mobile-width listener, charts, tick and label formatters, and `toLocaleString` output are not modelled.
- Backend I/O:
  - Requests are not modelled. A read is a parameter holding its response or `None` for an error, and a write is a returned value plus an outcome parameter.
  - Channel subscription and removal are not modelled.
  - `window.confirm` is the parameter `confirmed`.
  - The `orders` and `menu` fetches are ordered on the server. The model takes the rows in the order received.
- Concurrency: the model runs handlers one at a time.
  - Interleavings of the async handlers are not modelled.
  - The lost-update race of the read-then-write in `analysis.js` is not modelled.
  - Each handler is modelled as a start step and a finish step, and nothing runs between them.
- Loading spinners (`loading` flags) and console logging are not modelled.
- The 3-second message auto-clear (`setTimeout`) is not modelled. It is a timer.
- Realtime events with an unknown `eventType`, which are only logged, are not modelled.
- `JSON.parse` is an abstract decoder parameter. A decoded value that is not a list is not modelled, and neither is an `iteminfo` that is null.
- Floating point:
  - Amounts and prices are integers. `parseFloat` / `Number` of fractional or non-numeric text is not modelled.
  - The mean and the growth are exact rationals.
  - `Analytics.CalculateMetrics` states the mean and growth through `IsQuotient`, i.e. as products that give back the dividend. It does not state the value of a rounded floating-point division.
- Dates:
  - Rows carry an already-split (year, month, day) with a four-digit year; `Date` parsing is not modelled.
  - Day keys (UTC `toISOString`) and month and year keys (local time) are taken on the same calendar day, so time-zone shifts are not modelled.
  - The day of month is only bounded by 1..31. Month lengths are not checked.
  - The Asia/Kolkata "today" of `analysis.js` is the parameter `today`, and the clock reading of `calculateMetrics` is the parameter `now`.
- Dates.DayNumberCalibration: the day count is pinned only at the epoch, within months, and across the sample month end, leap day and year end. It is not proved correct for every date.
- Analytics.GatherGroups: `Object.values` lists integer-like keys (the year keys) in ascending numeric order, not in first-seen order. The model lists every key in first-seen order; after the sort the chart is the same (`Analytics.GroupingIsUnique`).
- Text:
  - `toLowerCase` folds ASCII letters only; Unicode case mapping is not modelled.
  - `trim` uses a fixed set of white-space characters.
  - `localeCompare` is lexicographic code-point order. This is exact on the ASCII digit-and-dash keys it compares.
  - `parseInt` is modelled without hexadecimal prefixes.
- Analytics.TopPerformingDays: it does not state which of several days with equal revenue win a tie at the fifth place. That depends on the dictionary's insertion order, which `Analytics.GatherDailyRevenue` states but the ranking does not carry through the sort.
- Menu.MenuItem: `price` and `Visibility` are nullable (`Option`), as the insert leaves `Visibility` unset and sends a `NaN` price as null. `name` and `category` are taken as non-null text, since every write of this component sends them as strings.
- Menu.MenuManager.StartEditing: for a null price the model keeps the edited id that was set before `toString` throws, i.e. it takes React to commit the update queued before the exception; the thrown error itself is not modelled.
- Seqs.SortBy: stability (equal elements keep their relative order) is not stated, so the order of tied entries after a sort is not carried through.
- Analytics.TopPerformingDays delegates to `Analytics.TopByKey`, which is written for any grouping key; the view passes the ISO day.
- DailyRevenue.RevenueTable: a missing amount in today's row counts as 0, as `null + n` does in the code. A map key is unique, so "exactly one row for today" holds by construction and is not proved separately.
- `components/Login.jsx` and `components/TabsLayout.jsx` are not part of this model. They are authentication through a backend call, cookies and UI switching.
