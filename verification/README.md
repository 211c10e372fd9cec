# Retail ledger and sales dashboard, in Dafny

A model of the browser script `script.js`. It keeps three lists: shops
("stores"), products and sales. Three form handlers change them:

- `addStore` adds a shop;
- `addProduct` adds a product;
- `registerSale` checks a sale, lowers the product's stock and records the
  sale.

A dashboard then reports the total revenue, a profit estimated at 30% of it,
and three tables. Each table sums the sale totals under a key: the calendar
day, the Monday-to-Sunday week, or the month.

The model is split into five modules:

- `Wrappers` (`wrappers.dfy`): the `Option` type for parsed form fields.
  `None` is the `NaN` that `parseInt` and `parseFloat` give for malformed
  text.
- `Text` (`text.dfy`): the string operations the script uses. These are
  `trim`, the first piece of `split`, `toString` of integers and
  `padStart(w, '0')`. `trim` is characterised by what it keeps and drops;
  the number texts come with a round trip or an injectivity lemma.
- `Calendar` (`calendar.dfy`): the proleptic Gregorian calendar of the
  ECMAScript `Date` object (ECMA-262 section 21.4.1).
  - A local date is a day number counted from 1970-01-01.
  - `CivilOf` steps day by day from that epoch. `DaysFromCivil` is the closed
    form of `MakeDay`. They are proved inverse to each other.
  - The class `LocalDate` is a mutable `Date` with the getters the script
    uses and `setDate`. `GetStartOfWeek` moves a date back to its Monday.
- `Ledger` (`ledger.dfy`): the class `Ledger` holds the three lists as
  sequence fields. Its three methods mirror the form handlers.
  - Each method states its guard, its effect and its frame in full.
  - Each method preserves the invariant `Valid`: element i has id i + 1, and
    every sale agrees with the shop and product it names.
- `Reporting` (`reporting.dfy`) covers the dashboard:
  - the revenue fold;
  - grouping into an insertion-ordered dictionary, with its properties:
    conservation, first-occurrence key order, at most one bucket per sale,
    and each bucket holding exactly its sales;
  - `fillTable`;
  - the three keys, each with a lemma saying exactly when two sales share
    that key;
  - the dashboard method itself.
- `Scenarios` (`scenarios.dfy`) works concrete cases: 1 and 7 January 2024
  share the week label "01/01/2024 - 07/01/2024"; 15 and 31 January 2024
  share the month key "2024-01"; the timestamp 2024-01-15T10:00:00.000Z has
  the day key "2024-01-15"; and a sale of 10 units at 2.5 from the shop
  "Loja A" of the product "Caneta" leaves 90 in stock, with revenue 25 and
  profit 7.5.

Money is exact: `real`, with the margin exactly 3/10. A sale's timestamp is
a parameter. Where the script reads a timestamp back as a local-time date
(`new Date(sale.date)`), the model takes a function `localDay` from the text
to the local day number.

## Model

| member | source | states |
|---|---|---|
| Text.Trim | script.js:25 | `trim` gives a result no longer than its input that is empty or starts and ends with a character other than ECMAScript white space |
| Text.TrimDropsSpace | script.js:25 | the result of `trim` is one contiguous piece of the input, and everything before and after that piece is white space |
| Text.TrimEmptyIff | script.js:25-26 | a name is empty after `trim` exactly when it is all white space, so only such names are refused |
| Text.TrimKeeps | script.js:25 | a name without white space at either end is kept as it is |
| Text.BeforeFirst | script.js:145 | `split(sep)[0]` is a prefix without `sep`, followed by `sep` whenever it is shorter than the input |
| Text.BeforeFirstOfJoin | script.js:145 | the text before the first separator is recovered exactly, whatever follows the separator |
| Text.NatToString | script.js:172 | `toString` of a non-negative integer is a non-empty digit string without a leading zero |
| Text.IntToString | script.js:174 | `toString` of any integer: a minus sign before the digits of a negative number, the plain digits otherwise |
| Text.NatToStringRoundTrip | script.js:172-173 | reading back the decimal digits gives the number |
| Text.PadZero | script.js:172-173 | `padStart(w, '0')` has length max(w, length), ends with the input and is zeros before it |
| Text.Padded | script.js:172-173 | `n.toString().padStart(w, '0')` for a non-negative number |
| Text.PaddedInjective | script.js:172-173 | distinct numbers have distinct zero-padded forms |
| Text.PaddedLength | script.js:172-173 | a number below 10^w padded to w places is exactly w digits |
| Text.IntToStringInjective | script.js:174 | distinct integers have distinct `toString` forms |
| Text.IntToStringHasNoSpace | script.js:174 | the `toString` form of an integer holds no space |
| Calendar.PrevDay | script.js:167-168 | stepping a valid date back one day gives a valid date that the next-day step undoes |
| Calendar.CivilOf | script.js:154 | every day number denotes a valid calendar date |
| Calendar.NextDayCount | script.js:157 | the next calendar day has the next day number |
| Calendar.DaysFromCivilOf | script.js:157 | the closed-form day count reads back the day number `CivilOf` stepped to |
| Calendar.CivilOfDaysFromCivil | script.js:157 | every valid date is reached by `CivilOf` at its closed-form day number |
| Calendar.CivilOfInjective | script.js:171-175 | distinct day numbers are distinct calendar dates |
| Calendar.DaysFromCivilInjective | script.js:157 | distinct valid dates have distinct day numbers |
| Calendar.DayOfMonth | script.js:157 | `setDate(k)` with k inside the month lands on day k of the same month |
| Calendar.Weekday | script.js:166 | `getDay` is 0..6, Sunday 0, with 1970-01-01 a Thursday |
| Calendar.StartOfWeek | script.js:165-168 | the start of the week is a Monday, on or at most six days before the date |
| Calendar.StartOfWeekUnique | script.js:165-168 | that Monday is the only Monday at most six days back |
| Calendar.LocalDate.constructor | script.js:154 | `new Date(sale.date)` denotes the sale's local day |
| Calendar.LocalDate.Copy | script.js:156 | `new Date(d)` is a new object for the same day as `d` |
| Calendar.LocalDate.GetDate | script.js:167 | `getDate` is a day of the month, 1..31 |
| Calendar.LocalDate.GetDay | script.js:166 | `getDay` is the weekday of the day, 0..6 with Sunday 0 |
| Calendar.LocalDate.GetMonth | script.js:173 | `getMonth` counts months from 0, 0..11 |
| Calendar.LocalDate.GetFullYear | script.js:174 | `getFullYear` is the year of the local calendar date |
| Calendar.LocalDate.SetDate | script.js:157 | `setDate(k)` moves to day k of the current month, running on into neighbouring months, i.e. by k minus the current day of month |
| Calendar.GetStartOfWeek | script.js:165-169 | moves the given date itself to its week's Monday and returns a new date for that same Monday |
| Ledger.FindId | script.js:100-101 | `find` by id gives the first element with that id, or nothing when no element has it or the id is `NaN` |
| Ledger.Ids | script.js:100-101 | definition only: the ids of a record list, in list order, that `find` searches |
| Ledger.FindSequential | script.js:100-101 | with ids 1..n by position, looking up k finds element k - 1, exactly when 1 <= k <= n |
| Ledger.NewSale | script.js:105-114 | definition only: the sale record built from the store, the product, the quantity and the timestamp |
| Ledger.NewSaleConsistent | script.js:105-114 | a new sale for a listed store and product, with a positive quantity, agrees with them: its ids name them, their names and price are copied, the quantity is positive and total = price * quantity |
| Ledger.SaleFieldsValid | script.js:102 | the first refusal test: both ids name a record and the quantity parsed to a positive integer |
| Ledger.Ledger.constructor | script.js:2-4 | the ledger starts with three empty lists, satisfying the invariant |
| Ledger.Ledger.AddStore | script.js:24-28 | a name empty after trimming is refused with nothing changed; otherwise exactly one store with the trimmed name and id = old length + 1 is appended; products and sales never change; ids stay 1..n |
| Ledger.Ledger.AddProduct | script.js:46-52 | refused, with nothing changed, exactly when the trimmed name is empty or price or stock is `NaN`, so negative numbers pass; otherwise exactly one product with id = old length + 1 is appended; stores and sales never change |
| Ledger.StockChangeKeepsSales | script.js:104 | changing a product's stock leaves every recorded sale consistent with the products, since a sale copies the price and name but not the stock |
| Ledger.Ledger.CommitSale | script.js:104-115 | lowers the chosen product's stock by the quantity, appends the new sale, leaves the stores alone and keeps the invariant |
| Ledger.Ledger.RegisterSale | script.js:96-115 | an unknown store or product, or a `NaN` or non-positive quantity, is refused first, then a quantity above the stock; a refusal changes nothing; on success only the chosen product's stock changes, down by exactly the quantity and to at least 0, and exactly one sale is appended that copies the store, the product and the price, with total = price * quantity and the given timestamp |
| Reporting.TotalRevenue | script.js:137 | the `reduce` sum of the sale totals, starting from 0 |
| Reporting.EstimatedProfit | script.js:138 | the estimated profit is 30% of a revenue, as for the total and for each table row |
| Reporting.TotalRevenueAppend | script.js:137 | the revenue of a concatenation is the sum of the revenues |
| Reporting.Accumulate | script.js:146 | the key's sum grows by the amount from its old value or from 0, every other sum stays; an existing key leaves the key list unchanged, and a new key is appended last |
| Reporting.GroupBy | script.js:143-147 | every listed key has a sum, and there are never more buckets than sales |
| Reporting.GroupByWellFormed | script.js:146 | no key is listed twice |
| Reporting.GroupByMembers | script.js:146 | a key is listed, and has a sum, exactly when some sale has that key |
| Reporting.GroupByKeyOrder | script.js:193 | keys come in the order of each key's first sale |
| Reporting.GroupBySum | script.js:146 | each bucket holds the total revenue of exactly the sales with its key |
| Reporting.GroupByConserves | script.js:137 | the buckets of a grouping add up to the total revenue |
| Reporting.FillTable | script.js:190-199 | one row per key, in key order, with the bucket's revenue and 30% of it as profit |
| Reporting.TableTotals | script.js:196 | each table's revenue column sums to the total revenue and its profit column to 30% of it |
| Reporting.DayKey | script.js:145 | the day key is the text of the timestamp before its first 'T' |
| Reporting.FormatDate | script.js:171-176 | `formatDate`: day and month padded to two digits, then the year, joined by '/' |
| Reporting.WeekLabel | script.js:159 | the week label of a day is the label of the week starting on its Monday |
| Reporting.WeekRange | script.js:159 | the label of a week: its Monday and the day six later, formatted and joined by " - " |
| Reporting.MonthKey | script.js:183 | the month key: the year, '-', and the month padded to two digits |
| Reporting.FormatDateInjective | script.js:171-176 | distinct valid dates have distinct DD/MM/YYYY forms |
| Reporting.FormatDateHasNoSpace | script.js:175 | a formatted date holds no space |
| Reporting.WeekRangeHead | script.js:159 | the text before the first space of a week label is the formatted Monday |
| Reporting.WeekLabelIff | script.js:153-160 | two days get the same week label exactly when they have the same Monday |
| Reporting.MonthKeyIff | script.js:183 | two dates get the same month key exactly when they share year and month |
| Reporting.IsoTimestamp | script.js:113 | the `toISOString` text of a date and a valid clock reading (hour < 24, minute and second < 60, milliseconds < 1000) in the years 0..9999: YYYY-MM-DD, "T", then HH:MM:SS.mmmZ |
| Reporting.FullDateHasNoT | script.js:113 | the date part of an ISO timestamp holds no 'T' |
| Reporting.FullDateInjective | script.js:113 | distinct dates have distinct YYYY-MM-DD forms |
| Reporting.DayKeyOfTimestamp | script.js:145 | the day key of an ISO timestamp is its YYYY-MM-DD date, whatever the time |
| Reporting.DayKeyIff | script.js:145 | two timestamps share a day key exactly when they are on the same UTC date |
| Reporting.WeekLabelOf | script.js:154-159 | the weekly loop body computes the label of the day's Monday-to-Sunday week |
| Reporting.SixDaysOn | script.js:156-157 | copying a date and moving the copy to its day of month plus 6 gives a new date six days later |
| Reporting.MonthKeyOf | script.js:182-183 | the monthly loop body computes the month key of the sale's local date |
| Reporting.GroupByStep | script.js:146 | one more sale changes the grouping by exactly one accumulation of its total under its key |
| Reporting.DailySales | script.js:143-147 | the daily loop builds the grouping by day key |
| Reporting.WeeklySales | script.js:152-161 | the weekly loop builds the grouping by week label |
| Reporting.MonthlySales | script.js:180-185 | the monthly loop builds the grouping by month key |
| Reporting.UpdateDashboard | script.js:136-187 | the totals are the revenue and 30% of it, and the three tables are the rows of the three groupings |
| Scenarios.NewYear2024 | script.js:166 | 2024-01-01 is day 19723 and a Monday |
| Scenarios.FirstWeekOf2024 | script.js:157 | day 19723 is 2024-01-01 and six days later is 2024-01-07 |
| Scenarios.SameWeekExample | script.js:152-160 | a sale on Monday 2024-01-01 and one on Sunday 2024-01-07 share the bucket "01/01/2024 - 07/01/2024" |
| Scenarios.SameMonthExample | script.js:183 | dates on 15 and 31 January 2024 share the month key "2024-01" |
| Scenarios.DayKeyExample | script.js:145 | the timestamp 2024-01-15T10:00:00.000Z has the day key "2024-01-15" |
| Scenarios.StoreScenario | script.js:24-115 | store "Loja A" and product "Caneta" at 2.50 with 100 in stock both get id 1; a sale of 10 leaves stock 90, a sale total of 25.00, revenue 25.00 and profit 7.50 |
| Scenarios.FirstSale | script.js:24-115 | the ledger part of that scenario: the ids, the stock and the one recorded sale |

## Left out

- The page itself is not modelled. This covers showing sections, the lists
  and selects, the sales table, the HTML built by `fillTable`, `alert`
  messages, clearing inputs and `window.onload`. It is user-interface work
  with no logic to prove.
- `localStorage` and JSON persistence are not modelled: loading at startup
  and saving after each change are I/O. The ledger starts empty.
- Parsing form text with `parseInt` and `parseFloat` is not modelled. The
  operations take the parsed values, with `None` for `NaN`. `parseInt` turns
  "2.5" into 2, and the code then accepts the sale for 2 units; the model
  takes the parsed 2 and follows the code.
- `new Date().toISOString()` reads the clock. The timestamp is the `now`
  parameter of `RegisterSale`.
- Time zones are not modelled. The day key is read from the UTC timestamp
  text, while the week and month keys use the local date, given as the
  `localDay` parameter. The model does not claim the three keys agree on one
  calendar day.
- Reporting.IsoTimestamp: only the years 0..9999 are modelled. Other years
  use the six-digit signed form, which is not.
- Ledger.Ledger.RegisterSale: stock, quantity and ids are unbounded
  integers. The script holds them as IEEE doubles (script.js:104 subtracts
  the quantity from the stock), which are exact only up to 2^53; larger
  values are not modelled.
- Calendar.CivilOf: covers every integer day number. The `Date` range limit
  of 10^8 days either side of 1970 is not modelled.
- Reporting.TotalRevenue: sums exactly. The script adds IEEE doubles, and
  `toFixed(2)` rounding for display is left out.
- Ledger.Ledger.AddProduct: a price is any real number. `parseFloat`'s
  `Infinity` is not modelled.
- Reporting.GroupBy: keys keep plain insertion order. A JavaScript object
  would list integer-like keys first in numeric order. None of the three key
  forms is integer-like, because each holds '-' or '/'.
- `getWeekNumber` (script.js:202-209) is never called, so it is not
  modelled.
- `currentStoreId` is never used, so it is not modelled.
