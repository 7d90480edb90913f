# Sales analytics core in Dafny

A model of the analytics layer of a restaurant sales dashboard. The backend answers report
queries over completed sales:

- an overview;
- the best-selling products;
- revenue by channel or store;
- delivery times by store, neighbourhood or city;
- the daily average ticket;
- revenue by product category;
- a monthly summary;
- a list of customers at risk of churning.

Every service method reads through a Redis cache with a fifteen-minute TTL. The frontend
shows dates with a small string formatter.

The model covers each part in its source's own form:

- Sales and reference tables are datatypes (`Schema`).
- Each SQL report is a pure function over a sequence of sales (`SalesRepository`,
  `CustomerRepository`). Its WHERE clause is a list of tagged predicates (`SalesQueries`).
- The two repository methods that build their query step by step are methods with loops or
  appends (`BuildTopProductsQuery`, `BuildDeliveryQuery`).
- The cache is a class over a map from key to value and expiry (`Cache.TtlCache`).
- The services are classes whose methods read, then on a miss query and write the cache.
  A ghost counter records how many repository queries they send.
- The monthly summary's trailing-window loop is a method with its invariant
  (`SalesService.SalesService.TrailingTotal`), over the corrected windows. The summary as
  the code computes it, with its two faults, is the function
  `SalesService.MonthlySummaryAsWritten`.
- Dates form a proleptic Gregorian calendar (`Calendar`) with `date.replace`, `timedelta` and
  `relativedelta` arithmetic.

`date.today()` is the parameter `today` and the cache clock is the parameter `now`, in seconds.

Modules, in dependency order: `Wrappers`, `Text` (split, join, decimal rendering), `Sequences`
(filter, grouping, stable sort, sums), `Calendar`, `Schema`, `SalesQueries`, `SalesRepository`,
`CustomerRepository`, `Cache`, `Models` (response records, cached payloads, cache keys),
`SalesService`, `CustomerService`, `Formatters`.

## Model

| member | source | states |
|---|---|---|
| Cache.Lookup | backend/cache.py:11-16 | a key yields a value exactly when it was stored and its expiry lies after `now`, and then it is the stored value |
| Cache.Store | backend/cache.py:18-20 | the key maps to the new value expiring 900 seconds from `now`; every other key keeps its entry |
| Cache.StoreThenLookup | backend/cache.py:9-20 | a value set less than 900 seconds ago is what `get` returns |
| Cache.StoreExpires | backend/cache.py:9-20 | 900 or more seconds after `set`, `get` returns nothing |
| Cache.StoreLeavesOthers | backend/cache.py:18-20 | `set` on one key leaves the lookup of every other key unchanged |
| Cache.NeverStoredMisses | backend/cache.py:11-16 | a key never set reads as absent |
| Cache.TtlCache.Get | backend/cache.py:11-16 | reads the live entry of the key, as `Lookup` |
| Cache.TtlCache.Set | backend/cache.py:18-20 | the new map is the old one with the key overwritten and its expiry reset |
| Models.TagTextInjective | backend/services/sales_service.py:26-188 | no two operations share a key tag |
| Models.KeysOfDistinctTagsDiffer | backend/services/sales_service.py:26-188 | keys of different operations differ, whatever their parameters |
| Models.KeyForInjective | backend/services/sales_service.py:26 | a tag joined with ':'-free parameters determines the parameter list |
| Models.DateParamInjective | backend/services/sales_service.py:26 | dates render as ISO `YYYY-MM-DD`, and different dates render differently |
| Models.OptionalParamInjective | backend/services/sales_service.py:91 | an absent filter renders as `None`, which no integer renders as |
| Models.StoredIsHit | backend/services/sales_service.py:29-41 | a truthy value stored under a key is a hit for the next 900 seconds |
| Models.StoredResponseDecodes | backend/services/sales_service.py:29-41 | a response stored under a key and read back within 900 seconds rebuilds into the same response, for each of the seven response models; this holds by construction of `Payload`, and the JSON round trip of dates and floats is not modelled |
| Models.HitHasTag | backend/services/sales_service.py:27-30 | in a cache written only by the services, a hit under an operation's key holds that operation's payload |
| Models.StoreKeepsWellKeyed | backend/services/sales_service.py:41 | writing a payload under its own operation's key keeps every entry matched to its tag |
| Models.CachedValue | backend/services/sales_service.py:27-30 | answers the live entry exactly when it is a hit; a falsy value counts as a miss |
| Models.StoreValue | backend/services/sales_service.py:41 | stores the payload under the key and keeps the cache well keyed |
| Models.DeliveryItems | backend/services/sales_service.py:158 | building the items fails exactly when some group has no name, and otherwise copies every row in order |
| SalesService.OverviewKeyInjective | backend/services/sales_service.py:26 | different date pairs give different overview keys |
| SalesService.MonthlySummaryKeyInjective | backend/services/sales_service.py:46 | the monthly key depends on today's ISO date only, and different days give different keys |
| SalesService.TopProductsKeyInjective | backend/services/sales_service.py:91 | different parameter tuples, including absent filters, give different top-products keys |
| SalesService.BreakdownKeyInjective | backend/services/sales_service.py:119 | different dates or dimensions give different breakdown keys, even for a dimension holding ':', which ends the key |
| SalesService.DeliveryKeyInjective | backend/services/sales_service.py:143 | different parameter tuples give different delivery keys, even for a dimension holding ':', which sits between three ':'-free parts on each side |
| SalesService.TrendKeyInjective | backend/services/sales_service.py:170 | different date pairs give different trend keys |
| SalesService.CompositionKeyInjective | backend/services/sales_service.py:188 | different date pairs give different composition keys |
| CustomerService.ChurnRiskKeyInjective | backend/services/customer_service.py:11 | different threshold pairs give different churn-risk keys |
| CustomerService.ChurnRiskKeyIgnoresToday | backend/services/customer_service.py:11 | the key omits today although the report depends on it: one database gives an empty report on 15 May 2024 and a non-empty one on 16 May under the same key |
| Calendar.AddMonths | backend/services/sales_service.py:55 | `relativedelta(months=n)` moves n calendar months and clamps the day to the target month's length |
| Calendar.Replace | backend/services/sales_service.py:56 | `date.replace` succeeds exactly when the new fields form a calendar day |
| Calendar.IsoWeekdayNextDay | backend/repositories/sales_repository.py:57 | ISO weekdays run 1..7 and advance by one each day, wrapping Sunday to Monday |
| SalesService.CurrentMonthStart | backend/services/sales_service.py:51 | the current-month window starts on day 1 of today's month, no later than today |
| SalesService.PreviousMonthStart | backend/services/sales_service.py:55 | the previous-month window starts on day 1 of the month before today's |
| SalesService.PreviousMonthSameDay | backend/services/sales_service.py:56 | the previous-month window ends on today's day of the month, clamped to that month's length |
| SalesService.PreviousMonthSameDayAgrees | backend/services/sales_service.py:56 | as written the window end raises exactly when today's day does not exist in the previous month, and otherwise equals the clamped end |
| SalesService.PreviousMonthSameDayRaisesOnMarch31 | backend/services/sales_service.py:56 | on 31 March 2024 the code as written raises, where 29 February 2024 is meant |
| SalesService.TrailingWindowIsMonth | backend/services/sales_service.py:62-64 | trailing window i runs from day 1 to the last day of the i-th full month before today's |
| SalesService.TrailingWindowAsWrittenSkipsMonth | backend/services/sales_service.py:63 | as written, window i ends in month i+1 before today's, so the month just before is never counted |
| SalesService.TrailingWindowSkipsAprilOnMay15 | backend/services/sales_service.py:63 | on 15 May 2024 the first trailing window as written ends on 31 March, where 30 April is meant |
| SalesService.TrailingWindowsAdjacent | backend/services/sales_service.py:62-64 | consecutive trailing windows meet with no gap and no overlap |
| SalesService.TrailingRevenueIsSpan | backend/services/sales_service.py:61-67 | the windows' revenues add up to the revenue of the whole span of those months |
| SalesService.RollingAverage | backend/services/sales_service.py:69 | a positive total is divided by 3, and any other total gives 0 |
| SalesService.MonthlySummaryAverage | backend/services/sales_service.py:61-69 | the summary's average is a third of the revenue of the three full months before today's, or 0 when that revenue is not positive |
| SalesService.TrailingRevenueAsWrittenSkipsMonth | backend/services/sales_service.py:61-67 | the loop as written sums the corrected windows 2 to n+1, leaving out the month just before today's |
| SalesService.MonthlySummaryAsWrittenAgrees | backend/services/sales_service.py:44-78 | as written, a miss fails with `date.replace`'s error exactly when today's day is missing from the previous month; otherwise its two revenues are the corrected ones and its average is a third of the second to fourth months before today's |
| SalesService.MonthlySummaryAsWrittenRaisesOnMarch31 | backend/services/sales_service.py:56 | on 31 March 2024 the summary as written fails, whatever the sales |
| SalesService.MonthlySummaryAsWrittenDiffersOnMay15 | backend/services/sales_service.py:61-69 | on 15 May 2024, with one sale of 30 on 10 April, the average as written is 0 where the corrected one is 10 |
| SalesService.OneSaleRevenue | backend/repositories/sales_repository.py:10-29 | the revenue of a one-sale table is that sale's amount exactly when it is completed within the window, and 0 otherwise |
| SalesService.WithinTrailingWindow | backend/services/sales_service.py:62-64 | a day lies in corrected trailing window i exactly when it falls in the i-th month before today's |
| SalesService.SalesService.TrailingTotal | backend/services/sales_service.py:61-67 | with the corrected windows, the loop sums the three trailing windows' revenues with one repository query per window |
| SalesService.SalesService.GetSalesOverview | backend/services/sales_service.py:25-42 | a hit returns the cached response with no query; a miss queries once, returns the response and stores it under the key |
| SalesService.SalesService.GetMonthlySummary | backend/services/sales_service.py:44-78 | a hit returns the cached dictionary; a miss, with the corrected windows, runs five overview queries, returns the summary and stores it |
| SalesService.SalesService.GetTopProducts | backend/services/sales_service.py:80-116 | read-through as for the overview, over the top-products report with all its filters |
| SalesService.SalesService.GetSalesBreakdown | backend/services/sales_service.py:118-140 | read-through; an invalid dimension fails before anything is stored |
| SalesService.SalesService.GetDeliveryPerformance | backend/services/sales_service.py:142-167 | read-through; an invalid dimension or an unnamed group fails before anything is stored |
| SalesService.SalesService.GetTicketTrend | backend/services/sales_service.py:169-185 | read-through over the daily ticket trend |
| SalesService.SalesService.GetTicketComposition | backend/services/sales_service.py:187-204 | read-through over the category composition |
| SalesService.OverviewTwice | backend/services/sales_service.py:25-42 | two calls within the TTL give the same response and send one query in total |
| CustomerService.CustomerService.GetChurnRiskCustomers | backend/services/customer_service.py:10-30 | a hit returns the cached response with no query; a miss queries once, echoes both thresholds with the report's rows in order, and stores the response |
| SalesQueries.AllHoldAppend | backend/repositories/sales_repository.py:131 | clauses joined with AND hold exactly when each part holds |
| SalesQueries.WindowClausesMeaning | backend/repositories/sales_repository.py:17-23 | the status and half-open `[start, end + 1 day)` clauses hold exactly for completed sales on a day from start to end |
| SalesQueries.TopProductsClausesMeaning | backend/repositories/sales_repository.py:46-62 | the assembled clauses hold exactly when the sale is completed and in the window, and each active filter holds |
| SalesQueries.ZeroChannelIsNoFilter | backend/repositories/sales_repository.py:50 | channel id 0 is falsy and adds no clause |
| SalesQueries.BuildTopProductsQuery | backend/repositories/sales_repository.py:37-62 | appending clause by clause yields the clause list of the top-products query |
| SalesQueries.DeliveryColumn | backend/repositories/sales_repository.py:100-114 | store, neighborhood and city map to their group columns, and every other dimension fails |
| SalesQueries.DeliveryClausesMeaning | backend/repositories/sales_repository.py:116-129 | the assembled clauses hold exactly for completed sales in the window with a delivery time that pass each active filter |
| SalesQueries.BuildDeliveryQuery | backend/repositories/sales_repository.py:100-129 | fails with the validation error before building anything; otherwise yields the group column and the clause list |
| SalesRepository.Average | backend/repositories/sales_repository.py:15 | the average times the count is the total, and an empty group averages 0 |
| SalesRepository.WindowSalesMeaning | backend/repositories/sales_repository.py:16-19 | the window holds exactly the completed sales from start to end |
| SalesRepository.SalesOverview | backend/repositories/sales_repository.py:10-29 | revenue and count are those of the window's sales, the average is revenue over count, and an empty window gives 0, 0, 0 |
| SalesRepository.OverviewAverageBounds | backend/repositories/sales_repository.py:15 | the average ticket lies between the smallest and largest amount in the window |
| SalesRepository.OverviewSplit | backend/repositories/sales_repository.py:17-19 | splitting a window at a day splits its count and revenue into the two parts |
| SalesRepository.ProductLinesMeaning | backend/repositories/sales_repository.py:43-48 | the joined rows are exactly the items of matching sales whose product exists |
| SalesRepository.ProductRowsMeaning | backend/repositories/sales_repository.py:38-64 | GROUP BY product: one row per product with a line, each row summing its product's revenue and quantity, every product covered |
| SalesRepository.TopProductsLines | backend/repositories/sales_repository.py:43-62 | a product line is counted exactly when its sale passes every active filter |
| SalesRepository.TopProductsReport | backend/repositories/sales_repository.py:63-66 | at most `limit` rows, one per product, revenue non-increasing; each row totals its product's lines; fewer rows than the limit means every product is listed; every product cut by the limit earns no more than every product listed |
| SalesRepository.TopProductsKeepBest | backend/repositories/sales_repository.py:65-66 | after ordering by revenue, the rows LIMIT cuts earn no more than the rows it keeps |
| SalesRepository.BreakdownDimensionOf | backend/repositories/sales_repository.py:73-75 | channel and store are accepted, and every other dimension fails with the source's message |
| SalesRepository.SalesBreakdown | backend/repositories/sales_repository.py:72-97 | the report fails exactly for an invalid dimension, with the source's message |
| SalesRepository.JoinedSalesMeaning | backend/repositories/sales_repository.py:84-88 | the joined sales are the window's completed sales whose channel or store exists |
| SalesRepository.BreakdownRowsMeaning | backend/repositories/sales_repository.py:78-89 | GROUP BY channel or store: one named row per group with sales, each its group's totals, every sale's group covered |
| SalesRepository.SalesBreakdownReport | backend/repositories/sales_repository.py:77-91 | one named row per channel or store with sales, revenue non-increasing, each row its group's totals, every group listed |
| SalesRepository.DeliveryPerformance | backend/repositories/sales_repository.py:99-101 | the report fails exactly for an invalid dimension, with the source's message |
| SalesRepository.DeliveredMeaning | backend/repositories/sales_repository.py:116-142 | a sale counts exactly when it passes the clauses and has a delivery address |
| SalesRepository.DeliveryRowsMeaning | backend/repositories/sales_repository.py:133-144 | one row per group with at least 10 deliveries, each its group's aggregates, and no group dropped that reaches 10 |
| SalesRepository.Percentile90Bounds | backend/repositories/sales_repository.py:137 | the interpolated 90th percentile of sorted times lies between the first and the last |
| SalesRepository.DeliveryPerformanceReport | backend/repositories/sales_repository.py:133-145 | one row per group, no group under 10 deliveries, average non-increasing, every group with 10 or more listed |
| SalesRepository.DeliveryRowBounds | backend/repositories/sales_repository.py:136-137 | a group's average and 90th percentile lie between its smallest and largest delivery time |
| SalesRepository.Percentile90Constant | backend/repositories/sales_repository.py:137 | the percentile of a constant group is that constant |
| SalesRepository.TrendPointsMeaning | backend/repositories/sales_repository.py:153-160 | one point per sale day, each the day's average ticket, every sale's day covered |
| SalesRepository.TicketTrendReport | backend/repositories/sales_repository.py:151-162 | one point per day with a completed sale in the window, dates strictly ascending, each point its day's average |
| SalesRepository.TrendPointBounds | backend/repositories/sales_repository.py:155 | a day's average ticket lies between its smallest and largest amount |
| SalesRepository.CompositionRowsMeaning | backend/repositories/sales_repository.py:172-182 | one row per category name, each summing its category's line prices, every line's category covered |
| SalesRepository.SalesCompositionReport | backend/repositories/sales_repository.py:170-184 | one row per category sold in the window, revenue non-increasing, each row its category's total |
| CustomerRepository.PurchasesMeaning | backend/repositories/customer_repository.py:14-20 | only completed sales of a known customer count as purchases |
| CustomerRepository.SummariesMeaning | backend/repositories/customer_repository.py:11-21 | one summary per customer with a purchase, and no customer without one |
| CustomerRepository.SummaryOfMeaning | backend/repositories/customer_repository.py:15-17 | a summary counts the customer's purchases, and its last purchase date is the day of their latest purchase |
| CustomerRepository.LongestInactiveFirstIsPreorder | backend/repositories/customer_repository.py:31 | last purchase ascending, then purchases descending, is a total preorder, so the sort is well defined |
| CustomerRepository.ChurnRiskReport | backend/repositories/customer_repository.py:28-36 | exactly the summaries with enough purchases and none after `today - inactive_days`, each customer once, oldest last purchase first and ties by more purchases |
| CustomerRepository.ChurnRiskListsInactive | backend/repositories/customer_repository.py:28-36 | a customer with enough purchases, none after the cutoff, is listed, and the cutoff day itself counts as inactive |
| Formatters.FormatDateForDisplay | frontend/src/utils/formatters.js:7 | the result is empty exactly when the input is missing or empty |
| Formatters.FormatReversesParts | frontend/src/utils/formatters.js:8-9 | `Y-M-D` becomes `D/M/Y` with the parts copied verbatim, and splitting on '/' recovers them |
| Formatters.FormatDropsExtraParts | frontend/src/utils/formatters.js:8 | parts after the third are dropped |
| Formatters.FormatYearOnly | frontend/src/utils/formatters.js:8-9 | a value without '-' renders as `undefined/undefined/` and the value |
| Formatters.FormatYearMonth | frontend/src/utils/formatters.js:8-9 | a value with one '-' renders the missing day as `undefined` |
| Formatters.FormatIsoDate | frontend/src/utils/formatters.js:6-10 | an ISO date from the backend is shown as `DD/MM/YYYY` |

## Left out

- SQL text, sessions and `db.execute` are not modelled. Each query is modelled by what it selects, groups, orders and limits.
- The Redis client and JSON are not modelled. A cached value is a `Payload`: one variant per response, plus `Falsy` for every value Python treats as false. Decoding a payload of the wrong shape fails with a stand-in validation message.
- Concurrent access to the cache is not modelled. Neither is a second writer racing between `get` and `set`.
- Floating point is not modelled. Amounts, averages and the percentile are exact `real`s.
- The 90th percentile follows the linear-interpolation definition of `PERCENTILE_CONT` on exact values.
- The order of ties under ORDER BY is unspecified in SQL. The model sorts stably, so tied rows keep the order in which their groups first appear.
- Python's `date` range (years 1 to 9999) and its `OverflowError` are not modelled. Years are unbounded.
- Formatters.FormatIsoDate assumes a year of 0 or more, where the rendering is four or more digits.
- A sale has at most one delivery address. A sale joined to several `delivery_addresses` rows would count once per row in SQL.
- NULL neighbourhoods and cities are not modelled: a delivery address always has both, as strings. The only unnamed delivery group is that of sales whose store is missing from `stores` under the LEFT JOIN; building its response item fails, as the `str` field of `DeliveryPerformanceItem` requires.
- SalesService.SalesService.GetMonthlySummary: computes its windows with the corrected end dates of the findings below, not the code as written. The code as written is `SalesService.MonthlySummaryAsWritten`, a function with no cache.
- SalesService.SalesService.TrailingTotal: sums the corrected windows, not the code as written. The loop as written is the function `SalesService.TrailingRevenueAsWritten`.
- SalesService.SalesService.GetTopProducts: requires `1 <= limit <= 100`, the bound the router enforces. The day-of-week and hour bounds of the router are not required; the report is defined for any value.
- CustomerService.CustomerService.GetChurnRiskCustomers: requires both thresholds to be at least 1, as the router enforces.
- The router's call of a non-existent `get_monthly_kpis` (backend/routers/sales_router.py:24) is not modelled. The service method it should call is.
- The routers, `backend/main.py` and the goal, filter and health repositories and services are not part of this model. They are HTTP wiring and single-statement reads and updates.
- Pydantic validation beyond the delivery item's required name is not modelled.
- Formatters.FormatDateForDisplay: takes a string or nothing. JavaScript values of other types, which have no `split`, are not modelled.

## Findings

| source | as written | input that shows it | evidently intended | confidence | as-written member | corrected member |
|---|---|---|---|---|---|---|
| backend/services/sales_service.py:56 | `today.replace(month=…, year=…)` is evaluated before `min` can clamp it, and raises when today's day does not exist in the previous month | today = 31 March 2024: February 2024 has no day 31 | end the previous-month window on today's day clamped to that month's length (29 February 2024) | high, not executed | SalesService.MonthlySummaryAsWrittenRaisesOnMarch31 | SalesService.PreviousMonthSameDay |
| backend/services/sales_service.py:63 | `start_of_current_month - relativedelta(months=i, days=1)` ends window i in the (i+1)-th month before the current one, so the last full month is skipped | today = 15 May 2024: window 1 ends on 31 March 2024, and April is never counted | windows 1, 2, 3 are the three full months just before the current one (April, March, February) | high, not executed | SalesService.MonthlySummaryAsWrittenDiffersOnMay15 | SalesService.TrailingEnd |
