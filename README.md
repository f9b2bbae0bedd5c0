# Transaction dashboard backend: a Dafny model of its four routes

The backend is an Express router over one MongoDB collection of product
transactions. Each transaction has a `title`, a `description`, a `price`, a
`dateOfSale` and a `sold` flag. The router serves four routes:

- `GET /init` deletes the whole collection, then inserts the seed list. The
  list comes from an HTTPS fetch.
- `GET /transactions?search&page&per_page` returns the records whose title or
  description matches `search` case-insensitively. It answers with one page of
  them and the total number of matches.
- `GET /statistics?month` rejects a missing or empty `month` with 400.
  Otherwise it answers, for the date window the month names, with:
  - the sum of prices;
  - the number of records sold;
  - the number of records not sold.
- `GET /bar-chart?month` counts, for the same window, the records in each of
  ten fixed price ranges.

The model keeps the collection as a sequence of `Transaction` values.
- `InitRoute.TransactionStore` is a class whose `records` field `/init`
  changes in two in-place steps: the delete, then the insert.
- The three read routes are functions over one unchanging snapshot of that sequence, so every query of a handler sees the same records (see "## Left out").
- `/init`, `/statistics` and `/bar-chart` answer a `Response`: `Ok(value)`, `BadRequest` (400) or `Error` (500).
- `/transactions` answers its `Listing` directly, because no query of the model fails.

## Dates and the month window

Dates are ECMAScript time values, in integer milliseconds since the epoch.
`Calendar` follows the date arithmetic of ECMA-262 5.1:
- `DayFromYear` (section 15.9.1.3);
- `MakeDay`, with its carry of a month index outside 0..11 into the year (section 15.9.1.12);
- `MakeDate` (section 15.9.1.13);
- `TimeClip` (section 15.9.1.14): a time outside ±8.64e15 ms is an Invalid Date.

`new Date(2021, month, 1)` becomes `NewDate` and answers `None` for an Invalid Date.

`month` arrives as query-string text, so the handlers' `month+1` is string
concatenation. The text "5" gives the end argument "51". The model computes
the end bound as `ToNumber(month + "1")`, which for decimal digits is
`10 * m + 1` (`Calendar.EndIndexIsConcatenation`).
- The window therefore runs from the first of month `m` of 2021 to the first
  of month `10 * m + 1` of 2021, carried into later years.
- It is exactly one calendar month only for `m = 0`
  (`Calendar.OneMonthOnlyForJanuary`).
- `month=5` queries from 1 June 2021 up to 1 April 2025
  (`Calendar.JuneQueryRunsToApril2025`).

The model follows the code here, not a reading of the handlers as
"one month".

## Price ranges

The range table is modelled as written. Row k counts prices in `[min, max)`:
`[0, 100)`, `[101, 200)`, …, `[801, 900)`, `[901, ∞)`.
- The rows are pairwise disjoint (`BarChartRoute.RangesDisjoint`).
- They leave out negative prices and every price in `[100k, 100k + 1)` for
  k = 1..9, including the whole prices 100, 200, …, 900
  (`BarChartRoute.UncoveredPrices`).
- So the ten counts add up to the number of records in the window exactly
  when no record in the window has such a price, and to less otherwise
  (`BarChartRoute.BarChartTotal`).

## Modules

- `transactions.dfy` (`Transactions`): the record type, `Option` and `Response`.
- `search.dfy` (`Search`): the case-insensitive substring match used by the listing.
- `listing.dfy` (`ListingRoute`): `/transactions`.
- `calendar.dfy` (`Calendar`): the date arithmetic, the month window and `RecordsIn`, the window filter.
- `statistics.dfy` (`StatisticsRoute`): `/statistics`.
- `bar_chart.dfy` (`BarChartRoute`): `/bar-chart`, the range table and its gaps.
- `seed.dfy` (`InitRoute`): `/init`, as a class holding the store.
- `scenarios.dfy` (`Scenarios`): three June 2021 records (prices 50, 150 and 950) followed through `/statistics` and `/bar-chart`.

## Model

| member | source | states |
|---|---|---|
| Search.FoldString | routes/routes.js:41-42 | the `i` option's case folding: same length, each character folded, ASCII upper case to lower case |
| Search.Contains | routes/routes.js:41-42 | the substring scan: for the empty pattern it always succeeds, and a pattern longer than the text is never found |
| Search.FoldStringIdempotent | routes/routes.js:41-42 | folding twice is folding once |
| Search.ContainsIffOccurs | routes/routes.js:41-42 | the scan finds the pattern exactly when the pattern occurs at some index of the text |
| Search.MatchesSearch | routes/routes.js:39-45 | the `$or` of the two case-insensitive tests, on title and on description; a search text longer than both fields never matches |
| Search.MatchesSearchIff | routes/routes.js:39-45 | a record matches exactly when the folded search occurs in its folded title or in its folded description |
| Search.EmptySearchMatches | routes/routes.js:35-42 | the default empty search matches every record |
| Search.MatchIgnoresCase | routes/routes.js:41-42 | searching with a differently cased text selects the same records |
| ListingRoute.Matches | routes/routes.js:39-48 | the records `find(query)` selects: no more than the collection holds, and a record is among them exactly when it is in the collection and matches |
| ListingRoute.MatchesAppend | routes/routes.js:39-48 | the selection keeps the collection's order: filtering two stretches, one after the other, is filtering them joined |
| ListingRoute.EmptySearchSelectsAll | routes/routes.js:35-48 | with the default search every record is a match, in order |
| ListingRoute.Skip | routes/routes.js:49 | `skip(k)`: the documents after the first k, none when k reaches the end; entry i is document k + i |
| ListingRoute.Limit | routes/routes.js:50 | `limit(n)`: the first min(n, length) documents, a prefix of the input |
| ListingRoute.PageOf | routes/routes.js:48-50 | `skip((page-1)*per_page).limit(per_page)`: the page's length, and entry i is match (page-1)*per_page + i |
| ListingRoute.PageWithin | routes/routes.js:48-50 | a page holds only matches |
| ListingRoute.PagesArePrefix | routes/routes.js:48-50 | pages 1 to k, joined, are the first k*per_page matches |
| ListingRoute.PagesCoverMatches | routes/routes.js:48-50 | enough pages, joined, give back every match in order |
| ListingRoute.MatchOnItsPage | routes/routes.js:48-50 | match j is entry j % per_page of page j / per_page + 1 |
| ListingRoute.ListTransactions | routes/routes.js:34-52 | defaults "" / 1 / 10. `total` counts every match whatever the page. The list is the requested page of the matches, and every listed record is in the collection and matches |
| Calendar.RecordsIn | routes/routes.js:68 | `{ $gte: start, $lt: end }`: no more records than the collection holds, and a record is selected exactly when it is in the collection and start <= dateOfSale < end |
| Calendar.TimeClip | routes/routes.js:63-64 | TimeClip of ECMA-262 5.1 as written: an Invalid Date outside ±8.64e15 ms, otherwise the time value; the window's existence condition it gives is stated by WindowOfMonthCount |
| Calendar.MakeDay | routes/routes.js:63-64 | MakeDay of ECMA-262 5.1: the year plus floor(month / 12), the month modulo 12, the days before that month and the date; its carry is stated by MakeDayCarries |
| Calendar.NewDate | routes/routes.js:63-64 | `new Date(year, month, 1)`: a NaN month gives an Invalid Date, and a valid date lies within TimeClip's range |
| Calendar.ToNumber | routes/routes.js:63-64 | the month text is a number exactly when it is all decimal digits; the number is then non-negative, and the empty text is 0 |
| Calendar.StartDate | routes/routes.js:63 | `new Date(2021, month, 1)`: valid only for a numeric month text, and within TimeClip's range |
| Calendar.EndDate | routes/routes.js:64 | `new Date(2021, month+1, 1)`: for a month text with value m it is the date of month 10 * m + 1, since `month+1` appends a digit |
| Calendar.MonthWindow | routes/routes.js:63-64 | the window of the raw month text, built from both bounds: when it exists the text is numeric (a text that is not a number gives no window), and the window starts on or after 1 January 2021 and ends strictly after it starts |
| Calendar.WindowOrdered | routes/routes.js:63-64 | a window built from the two bounds has a numeric month text, starts in 2021 or later and is not empty |
| Calendar.EndIndexIsConcatenation | routes/routes.js:64 | for a decimal month text, the `month+1` text reads as 10 * month + 1 |
| Calendar.YearLength | routes/routes.js:63 | consecutive years of DayFromYear start 365 or 366 days apart, as InLeapYear says |
| Calendar.MakeDayCarries | routes/routes.js:63-64 | MakeDay of (year, month) depends only on the month count 12 * year + month |
| Calendar.MonthLength | routes/routes.js:63-64 | consecutive months start 28 to 31 days apart |
| Calendar.FirstOfMonthIncreasing | routes/routes.js:63-64 | a later month starts on a later day |
| Calendar.FirstOfMonthInjective | routes/routes.js:63-64 | two months start on the same day exactly when they are the same month |
| Calendar.NewDateAsMonth | routes/routes.js:63 | `new Date(2021, m, 1)` is TimeClip of the first day of month m counted from January 2021 |
| Calendar.BoundsAsDates | routes/routes.js:63-64 | for a month text with value m, the bounds are the dates of months m and 10 * m + 1 |
| Calendar.BoundsOrdered | routes/routes.js:63-64 | for m >= 0 the start is on or after 1 January 2021 and strictly before the end |
| Calendar.WindowOfMonthCount | routes/routes.js:63-64 | the window for month value m exists exactly when its end is within TimeClip's range, and then runs from the first of month m to the first of month 10 * m + 1 |
| Calendar.WindowBounds | routes/routes.js:63-64 | for a month text with value m, the window exists exactly when the end month is within TimeClip's range, with the bounds of months m and 10 * m + 1 |
| Calendar.NextMonthOnlyForZero | routes/routes.js:64 | month 10 * m + 1 is the month after month m exactly when m = 0 |
| Calendar.OneMonthOnlyForJanuary | routes/routes.js:63-64 | the window ends at the start of the month after its first day exactly when the month value is 0 |
| Calendar.JuneAndAprilDays | routes/routes.js:63-64 | 1 June 2021 is day 18779 and 1 April 2025 is day 20179 |
| Calendar.JuneQueryRunsToApril2025 | routes/routes.js:63-64 | `month=5` queries from 1 June 2021 up to 1 April 2025 |
| StatisticsRoute.SumPrices | routes/routes.js:69 | `$sum: "$price"`: 0 for no records, and non-negative when every price is |
| StatisticsRoute.SumPricesAppend | routes/routes.js:69 | the sum over two stretches joined is the sum of their sums |
| StatisticsRoute.FirstTotalOrZero | routes/routes.js:83 | the first group's total, or 0 when there is no group: the fallback to 0 changes nothing else, since a total of 0 is already 0 |
| StatisticsRoute.AggregateTotal | routes/routes.js:67-70 | the `$group` stage gives at most one group, and none exactly when no record is in the window |
| StatisticsRoute.TotalIsWindowSum | routes/routes.js:67-83 | the first group's total, or 0 when there is no group, is the sum of prices over the window: 0 when the window is empty |
| StatisticsRoute.CountSold | routes/routes.js:72-80 | a count of records in the window is at most the window's size |
| StatisticsRoute.WithSold | routes/routes.js:72-80 | a record is kept exactly when it is among the given records and has the given `sold` flag |
| StatisticsRoute.CountSoldIsWindowFilter | routes/routes.js:72-80 | the count query is the number of records in the window with the given `sold` flag |
| StatisticsRoute.SoldAndNotSoldCoverWindow | routes/routes.js:72-80 | the sold and the unsold counts add up to the number of records in the window |
| StatisticsRoute.Statistics | routes/routes.js:58-91 | 400 exactly when `month` is missing or empty. 500 exactly when a given month yields no window. Otherwise: the window's price sum, its sold and unsold counts, and these counts add up to the window's size |
| BarChartRoute.InRange | routes/routes.js:115 | `{ $gte: min, $lt: max }` on the price, with no upper test for Infinity; a price can only lie in a row whose bounds are in order |
| BarChartRoute.CountInRange | routes/routes.js:113-116 | a range's count is at most the number of records in the window |
| BarChartRoute.PricedIn | routes/routes.js:115 | `{ $gte: min, $lt: max }` on price: a record is kept exactly when it is among the given records and min <= price < max |
| BarChartRoute.CountInRangeIsWindowFilter | routes/routes.js:113-116 | the count query is the number of records in the window priced within the range |
| BarChartRoute.CountEach | routes/routes.js:112-119 | one entry per table row, in table order, with that row's label and count |
| BarChartRoute.BarChart | routes/routes.js:92-126 | never 400; 500 exactly when the month is missing or gives no window; otherwise ten entries in table order, each with its row's label and the number of records in the window priced within that row |
| BarChartRoute.RangesAscending | routes/routes.js:98-109 | every row before the last is bounded, its lower bound strictly below its upper one, and ends no later than the next row begins |
| BarChartRoute.EarlierRowEndsFirst | routes/routes.js:98-109 | in an ascending table, any earlier row is bounded and ends no later than any later row begins |
| BarChartRoute.RangesDisjoint | routes/routes.js:98-115 | no price lies in two different rows |
| BarChartRoute.RangeRow | routes/routes.js:98-109 | row i runs from 0 (i = 0) or 100i + 1, up to 100i + 100, and only row 9 is unbounded |
| BarChartRoute.UncoveredPrices | routes/routes.js:98-115 | a price is in no row exactly when it is negative or lies in [100k, 100k + 1) for some k in 1..9 |
| BarChartRoute.HitsIffInSomeRange | routes/routes.js:115 | a price is counted by some row exactly when some row contains it |
| BarChartRoute.HitsAtMostOne | routes/routes.js:98-115 | in an ascending table, a price is counted by at most one row |
| BarChartRoute.TotalOfCounts | routes/routes.js:112-119 | the counts of all entries add up to the number of (record, row) hits in the window |
| BarChartRoute.HitTotalOfRanges | routes/routes.js:98-115 | over the table, the hits number at most the records, and exactly the records when every price is in some row |
| BarChartRoute.BarChartTotal | routes/routes.js:112-119 | the ten counts add up to at most the window's size, and to exactly that when no price in the window is negative or in a gap |
| InitRoute.Inserted | routes/routes.js:23 | what an ordered insert writes: a prefix of the documents, all of them without a fault, and the first min(k, length) after a fault at document k |
| InitRoute.AfterInit | routes/routes.js:19-28 | the contents after `/init`: unchanged after a failed fetch or delete, otherwise a prefix of the fetched list, and exactly the fetched list when the insert succeeds |
| InitRoute.TransactionStore.DeleteMany | routes/routes.js:22 | on success the store is empty, and on failure it is unchanged |
| InitRoute.TransactionStore.InsertMany | routes/routes.js:23 | the documents written are appended in order; all of them on success |
| InitRoute.TransactionStore.Init | routes/routes.js:17-30 | 200 exactly when the fetch, the delete and the insert all succeed, 500 otherwise. The new contents are AfterInit of the old, and after 200 they are exactly the fetched list |
| InitRoute.TransactionStore.InitTwice | routes/routes.js:17-30 | a second `/init` with the same inputs answers as the first and leaves the contents one call leaves |
| InitRoute.InitReplaces | routes/routes.js:22-23 | after a successful `/init` the store holds exactly the fetched list |
| InitRoute.InitForgetsOldContents | routes/routes.js:22-23 | once the delete succeeds the outcome does not depend on the old contents, and holds only fetched records |
| InitRoute.InitIdempotent | routes/routes.js:17-30 | applying `/init` twice with the same inputs leaves what applying it once leaves |
| InitRoute.FailedInsertLeavesPrefix | routes/routes.js:22-28 | an insert failing after the delete leaves a prefix of the fetched list, and an empty store when it fails at the first document |
| Scenarios.JuneRecordsInWindow | routes/routes.js:68 | the three June 2021 records all lie in the `month=5` window |
| Scenarios.JuneStatistics | routes/routes.js:58-91 | `/statistics?month=5` over them gives total 1150, 2 sold, 1 not sold |
| Scenarios.JunePricedIn | routes/routes.js:98-115 | rows "0-100", "101-200" and "901-above" hold one of them each, the other rows none |
| Scenarios.JuneBarEntry | routes/routes.js:92-126 | each `/bar-chart?month=5` entry carries its row's label and that row's count |
| Scenarios.JuneBarChart | routes/routes.js:92-126 | `/bar-chart?month=5` gives counts 1, 1, 0, …, 0, 1 |
| Scenarios.MissingMonthRefused | routes/routes.js:60-62 | `/statistics` with no month or an empty month answers 400 |

## Left out

- The network fetch of the seed list (`axios.get`): `/init` takes its outcome as a parameter, `None` for a failed fetch.
- `mongoose.connect` and its logging, the `console.error` logging in each handler's error branch, and the server wiring around the router: these are connection set-up and I/O.
- HTTP status codes, response bodies and JSON serialisation: they become the `Response` datatype.
- Interleaving with a concurrent `/init`. Each read handler's queries are evaluated against one unchanging sequence: the count and the `find` of `/transactions`, the aggregate and the two counts of `/statistics`, and the ten counts of `/bar-chart`. A read that runs between another request's `deleteMany` and `insertMany`, or between its own queries, is not modelled. So `soldItems + notSoldItems` equalling the window's size, and `total` agreeing with the page, are promised only for such a snapshot.
- `find` without a `sort`: the model takes it to return the sequence's order, the same on every request. MongoDB does not guarantee one natural order across requests, so `ListingRoute.PagesArePrefix` and `ListingRoute.PagesCoverMatches` hold only under that assumption.
- Failures of the MongoDB queries on the read routes (answered 500 by the handlers): the read routes query a snapshot sequence that always answers.
- The model does not give documents an `_id`, which the store assigns and no route reads.
- `Promise.all` over the ten counts: the counts are independent, so the model maps them in table order, one after the other.
- Floating-point prices and sums: prices are reals, so rounding in `$sum` and comparisons is not modelled.
- The local time zone of `new Date(...)`: dates are built in UTC.
- Search.MatchesSearch: `search` is read as a literal substring, not a regular expression. Case folding covers ASCII letters only.
- Calendar.ToNumber: only the empty text and decimal digit strings are numbers. The empty text is 0. Other texts JavaScript would read as numbers, such as signs, spaces, fractions, exponents and hexadecimal, are treated as NaN.
- ListingRoute.ListTransactions: `page` and `per_page` must be at least 1, and their query-string texts are taken as already-converted integers. The store's meaning of `limit(0)`, of negative values and of non-numeric texts is not modelled.
- InitRoute.TransactionStore.DeleteMany: a delete is modelled as removing everything or nothing. A partially completed delete is not modelled.
- InitRoute.TransactionStore.InsertMany: an ordered insert that fails at document k is modelled as writing the documents before k. Schema casting of the fetched data, and fetched data that is not a list of transactions, are not modelled.
