# Sales analytics core in Dafny

This project models the data-processing core of a small sales analytics
pipeline. The pipeline reads pipe-delimited transaction lines. Each line has
eight fields: `TransactionID|Date|ProductID|ProductName|Quantity|UnitPrice|CustomerID|Region`.

The core does four things:

- It parses the lines into transaction records. There are two parsers: a strict one that records why each rejected line was rejected, and a lenient one that drops bad lines silently.
- It validates the records against hard rules and applies optional region and amount filters.
- It aggregates the records by region, product, customer and date, and finds the peak sales day and the low-performing products.
- It joins the records with a product catalogue fetched from an external API.

Each Python function of the core is a `method` with a loop, like the
source. Each method is proved against a specification function. The
properties the functions promise are proved as lemmas about those
specification functions.

Some representation choices:

- Python's insertion-ordered dicts are sequences of entries whose keys are distinct (`Collections.DistinctBy`).
- Python's stable `sort` is a functional stable insertion sort (`Sorting.SortBy`).
- Money is exact `real`.
- `round(x, 2)` is `Transactions.Round2`, which rounds half up.

Modules, one per file:

| file | module | models |
|---|---|---|
| `wrappers.dfy` | `Wrappers` | `Option`, `Result` |
| `collections.dfy` | `Collections` | sums, dict keys, `s[:n]`, filtering, subsequences |
| `text.dfy` | `Text` | `strip`, `split`, `join`, `replace(",", "")`, `int()`, `float()`, string order |
| `transactions.dfy` | `Transactions` | the transaction record, line revenue, totals, `round(x, 2)` |
| `sorting.dfy` | `Sorting` | Python's stable `sort` with a key |
| `grouping.dfy` | `Grouping` | the group-by-key dict loop the aggregations share |
| `parsing.dfy` | `Parsing` | `parse_and_clean_data`, `parse_transactions` |
| `validation.dfy` | `Validation` | `validate_and_filter` |
| `regions.dfy` | `Regions` | `calculate_total_revenue`, `region_wise_sales` |
| `products.dfy` | `Products` | `top_selling_products`, `low_performing_products` |
| `customers.dfy` | `Customers` | `customer_analysis` |
| `daily.dfy` | `Daily` | `daily_sales_trend`, `find_peak_sales_day` |
| `enrichment.dfy` | `Enrichment` | `create_product_mapping`, `enrich_sales_data` |

## Source behaviour worth noting

- **Division by zero in `region_wise_sales`.** The percentage step divides each region's sales by `total_revenue` with no zero guard (`utils/data_processor.py`, lines 257-259). So it raises `ZeroDivisionError` when the total is 0 and there is at least one region. `Regions.RegionWiseSales` returns `Failure(ZeroDivisionError)` in exactly that case. An empty input gives an empty table and no error.
- **Iteration order in `find_peak_sales_day`.** The scan iterates the dict that `daily_sales_trend` returns, which is already sorted by date. The scan replaces the peak only on a strictly higher revenue. So among days tied at the maximum revenue, the earliest date wins (`Daily.PeakIsEarliestBest`).
- **`min()` on a possibly empty list in `validate_and_filter`.** The function calls `min()` on the amounts of the transactions that passed the hard rules (line 184). When none passed, that list is empty and `min()` raises `ValueError`. `Validation.ValidateAndFilter` returns `Failure(EmptySequence)` in exactly that case.
- **Default arguments.** `top_selling_products` takes `n=5` and `low_performing_products` takes `threshold=10`, and the driver relies on both defaults. The model passes `n` and `threshold` explicitly; the defaults are the constants `Products.DefaultTopN` and `Products.DefaultThreshold`.

## Model

| member | source | states |
|---|---|---|
| Transactions.TotalRevenuePositive | utils/data_processor.py:228-233 | the revenue total of transactions with positive line revenue is 0 for no transactions and positive otherwise |
| Transactions.Round2 | utils/data_processor.py:257-259 | `round(x, 2)` is within half a hundredth of `x` |
| Regions.CalculateTotalRevenue | utils/data_processor.py:224-233 | the loop's running sum equals the sum of quantity times unit price over all transactions |
| Regions.AccumulateRegions | utils/data_processor.py:239-253 | the first loop builds the region dict, with entries in first-seen order |
| Regions.RegionWiseSales | utils/data_processor.py:235-270 | it fails exactly when there are transactions and the total is 0; otherwise regions are sorted by sales descending, each appears once, they are exactly the input's regions, the sales add up to the total revenue and the counts add up to the number of transactions |
| Regions.SalesDescIsOrder | utils/data_processor.py:265-266 | sorting by `total_sales` descending is a strict weak order |
| Regions.RegionSalesSucceed | utils/data_processor.py:240-259 | when every line revenue is positive (as after validation), the percentage step cannot divide by zero |
| Regions.RegionTableEmpty | utils/data_processor.py:239-253 | the region dict is empty exactly when there are no transactions |
| Regions.RegionSalesSorted | utils/data_processor.py:262-268 | the result is ordered by total sales, descending |
| Regions.RegionSalesDict | utils/data_processor.py:242-253 | each region appears once, and the keys are exactly the regions of the input |
| Regions.RegionSalesConserve | utils/data_processor.py:242-253 | per-region sales add up to the total revenue, and per-region counts add up to the number of transactions |
| Regions.RegionSalesEntries | utils/data_processor.py:242-253 | a region's total sales and count are the revenue and number of the transactions in that region |
| Regions.WithPercentagesNearShares | utils/data_processor.py:256-259 | each rounded percentage is within 0.005 of the region's exact share of 100 |
| Regions.PercentagesTrackShares | utils/data_processor.py:256-259 | the sum of rounded percentages is within 0.005 per region of the sum of exact shares |
| Regions.SharesAddUpTo100 | utils/data_processor.py:256-259 | when the sales add up to the total and each percentage is within 0.005 of its sales scaled by 100 over the total, the percentages add up to 100 within 0.005 per region |
| Regions.WithPercentagesNear100 | utils/data_processor.py:256-259 | when the sales add up to a non-zero total, the percentage loop's output adds up to 100 within 0.005 per region |
| Regions.RegionPercentagesNear100 | utils/data_processor.py:240-259 | for a non-empty input that succeeds, the percentages add up to 100 within 0.005 per region |
| Grouping.AddToConserves | utils/data_processor.py:252-253 | one step of an accumulation loop adds the line's revenue, one transaction and its units to the running totals |
| Products.AccumulateProducts | utils/data_processor.py:277-291 | the loop builds the product dict, with quantity and revenue per product in first-seen order (also lines 410-424) |
| Products.ProductTableFacts | utils/data_processor.py:279-291 | each product appears once, the keys are exactly the input's product names, and each entry's quantity and revenue are those of the product's transactions |
| Products.ProductTableConserves | utils/data_processor.py:279-291 | per-product quantities add up to the total quantity, and revenues to the total revenue |
| Products.QuantityOrders | utils/data_processor.py:299 | sorting by quantity, descending or ascending, is a strict weak order |
| Products.TopSellingProducts | utils/data_processor.py:273-301 | the result is sorted by quantity descending, has no repeated product, holds only real entries, and every product left out sold no more than every product kept |
| Products.TopSellingFacts | utils/data_processor.py:293-301 | the top-n list is sorted descending, has distinct products, and is drawn from the product dict |
| Products.TopSellingDominates | utils/data_processor.py:299-301 | no product cut off by `[:n]` sold more than any product kept |
| Products.TopSellingStable | utils/data_processor.py:299 | products with equal quantity keep their first-seen order after the sort |
| Products.Below | utils/data_processor.py:426-430 | the comprehension keeps exactly the entries whose quantity is below the threshold |
| Products.BelowDistinct | utils/data_processor.py:426-430 | filtering keeps product names distinct |
| Products.LowPerformingProducts | utils/data_processor.py:406-435 | the result is sorted by quantity ascending, has distinct products, and holds exactly the product dict's entries below the threshold |
| Products.LowPerformingFacts | utils/data_processor.py:426-433 | the low performers are sorted ascending, distinct, and exactly the entries below the threshold |
| Customers.SpentDescIsOrder | utils/data_processor.py:336-342 | sorting by `total_spent` descending is a strict weak order |
| Customers.CustomerCountsPositive | utils/data_processor.py:309-323 | every customer bought at least one distinct product and no more distinct products than purchases |
| Customers.AccumulateCustomers | utils/data_processor.py:307-323 | the loop builds the customer dict: spend, purchase count and the set of products bought |
| Customers.CustomerAnalysis | utils/data_processor.py:303-344 | the result is sorted by spend descending; customers are distinct and exactly the input's; each average is within 0.005 of spend over count; spend and counts add up to the totals |
| Customers.CustomerAnalysisSorted | utils/data_processor.py:336-342 | the analysis is ordered by total spent, descending |
| Customers.CustomerAnalysisDict | utils/data_processor.py:309-323 | each customer appears once, and the keys are exactly the input's customers |
| Customers.CustomerAnalysisEntries | utils/data_processor.py:309-333 | a customer's spend, count and products are those of their transactions, and the average is the rounded spend per purchase |
| Customers.CustomerAnalysisConserves | utils/data_processor.py:309-323 | spends add up to the total revenue, and purchase counts to the number of transactions |
| Daily.DateAscIsOrder | utils/data_processor.py:379 | lexicographic date order is a strict weak order |
| Daily.AccumulateDays | utils/data_processor.py:355-371 | the loop builds the date dict: revenue, count and the set of customers |
| Daily.DailySalesTrend | utils/data_processor.py:351-381 | dates are strictly increasing and exactly the input's dates; each day has 1 to count unique customers; revenue and counts add up to the totals |
| Daily.DailySalesDict | utils/data_processor.py:357-371 | each date appears once, and the keys are exactly the input's dates |
| Daily.DailySalesChronological | utils/data_processor.py:379 | the trend is in strictly increasing date order |
| Daily.DailySalesEntries | utils/data_processor.py:357-376 | a day's revenue, count and unique customers are those of its transactions |
| Daily.DailySalesConserves | utils/data_processor.py:357-371 | daily revenues add up to the total revenue, and counts to the number of transactions |
| Daily.PeakIndex | utils/data_processor.py:389-397 | the strict-`>` scan from 0 picks no day when no revenue is positive; otherwise it picks a day of maximal revenue that beats every earlier day |
| Daily.PeakOf | utils/data_processor.py:389-399 | `(peak_date, peak_revenue, peak_count)` of the scan: the peak day's fields, or `(None, 0, 0)` when the scan picks no day |
| Daily.PeakOfStep | utils/data_processor.py:394-397 | one more day of the scan replaces the peak exactly when its revenue is strictly higher |
| Daily.FindPeakSalesDay | utils/data_processor.py:383-399 | the peak revenue bounds every day; there is no peak date exactly when no day has positive revenue, and then the result is `(None, 0, 0)`; otherwise the date is the earliest day with that revenue, and the count is that day's |
| Daily.PeakIsEarliestBest | utils/data_processor.py:393-397 | the scan's result is the earliest date among the days of maximal positive revenue, with that day's revenue and count |
| Parsing.ParseTransactions | utils/data_processor.py:104-151 | the result holds the records of the lines that parse, in order, one per such line, and every kept product name has no comma and no white space at either end |
| Parsing.ParseLine | utils/data_processor.py:112-147 | one line of the loop: `None` unless the line splits into eight fields whose quantity and price parse; otherwise the record, with the name cleaned |
| Parsing.RecordNameClean | utils/data_processor.py:130 | the name stored in a record has no comma and no white space at either end, whatever the raw field held |
| Parsing.ParsedNamesClean | utils/data_processor.py:129-130 | every record `parse_transactions` keeps has a product name with no comma and no outer white space, including records the strict cleaner would remove |
| Parsing.ParsedLinesCount | utils/data_processor.py:111-149 | one record per line with eight fields and parseable numbers |
| Parsing.ParsedLinesAppend | utils/data_processor.py:111-149 | parsing is line by line: parsing two blocks of lines concatenates their results |
| Parsing.ParseLineRoundTrip | utils/data_processor.py:112-147 | a record written back as eight `|`-joined fields parses to the same record |
| Parsing.ParseIntRejectsWord | utils/data_processor.py:132-136 | `int()` rejects text that starts with neither a sign nor a digit |
| Parsing.HeaderDoesNotParse | utils/data_processor.py:132-136 | the header line is dropped because its `Quantity` column does not parse |
| Parsing.CleanLine | utils/data_processor.py:27-89 | one line of the loop: the six checks in order, returning the reason of the first that fails, or the record |
| Parsing.CleanLineFirstFailure | utils/data_processor.py:29-80 | a line is removed with the k-th reason exactly when check k fails and all earlier checks pass; it is kept exactly when all six pass |
| Parsing.CleanLineParses | utils/data_processor.py:27-91 | a line the strict parser keeps is kept by the lenient one with the same record; a line the lenient parser drops, the strict one removes |
| Parsing.CleanLineRecord | utils/data_processor.py:46-89 | a kept record has a `T` id, a customer and a region, positive quantity and price, and a product name without commas or outer white space |
| Parsing.ParseAndCleanData | utils/data_processor.py:6-97 | it counts every non-header line; each counted line is cleaned or removed; every removal carries one of the six reasons, which is the reason its line fails with |
| Parsing.CleanAllCounts | utils/data_processor.py:20-80 | `total_records` counts the non-header lines and equals cleaned plus removed; `invalid_records` is the number removed |
| Parsing.CleanAllRemoved | utils/data_processor.py:29-80 | every removed entry pairs its line with the reason that line fails with |
| Parsing.CleanAllCleaned | utils/data_processor.py:82-93 | every cleaned record comes from an input line that both parsers keep with that record |
| Validation.HardValid | utils/data_processor.py:166-174 | the six hard rules: positive quantity and unit price, ids starting with `T`, `P` and `C`, and a region that is not blank |
| Validation.SoftVerdict | utils/data_processor.py:191-204 | the soft filters in the source's order: a truthy region that differs, then a truthy lower bound, then a truthy upper bound |
| Validation.HardRules | utils/data_processor.py:166-178 | the first loop keeps the transactions that pass the six hard rules, in order, and counts the rest |
| Validation.SoftFilters | utils/data_processor.py:191-206 | the second loop keeps the transactions that pass the filters, and counts those dropped by region and by amount |
| Validation.SoftSnoc | utils/data_processor.py:194-206 | one more transaction goes to exactly the bucket its verdict names |
| Validation.ValidateAndFilter | utils/data_processor.py:159-216 | it fails exactly when nothing passes the hard rules; otherwise the summary's buckets add up to the input size, the output is an order-preserving subsequence of the input, and it holds exactly the transactions that pass both stages |
| Validation.ValidateMembers | utils/data_processor.py:166-206 | membership in the output is equivalent to membership in the input, passing the hard rules and passing the filters |
| Validation.HardSplit | utils/data_processor.py:166-178 | every transaction is either kept or counted invalid |
| Validation.SoftSplit | utils/data_processor.py:191-206 | every transaction that passed the hard rules is kept, filtered by region, or filtered by amount |
| Validation.ValidatePartition | utils/data_processor.py:208-214 | `invalid + filtered_by_region + filtered_by_amount + final_count == total_input` |
| Validation.ValidateSubsequence | utils/data_processor.py:166-206 | the output is the input with some transactions removed, in input order |
| Validation.KeptIff | utils/data_processor.py:194-204 | a transaction is kept exactly when it is in the requested region and its amount is within the bounds that are truthy |
| Validation.RegionBeforeAmount | utils/data_processor.py:194-204 | the region filter runs first: a transaction filtered by amount is in the requested region |
| Validation.NoFiltersKeepAll | utils/data_processor.py:191-206 | with no truthy filter, everything that passes the hard rules is kept and nothing is counted as filtered |
| Validation.ValidateIdempotent | utils/data_processor.py:159-216 | validating the output again with the same filters returns it unchanged, with no invalid transactions |
| Validation.ValidatedRevenuePositive | utils/data_processor.py:167-169 | every kept transaction has a positive amount, so a non-empty output has a positive total |
| Enrichment.CreateProductMapping | utils/api_handler.py:56-72 | the mapping's keys are exactly the ids that are present in the catalogue; products without an id are skipped |
| Enrichment.MappingKeys | utils/api_handler.py:62-64 | an id is a key exactly when some product carries it |
| Enrichment.MappingLastWins | utils/api_handler.py:62-70 | each key maps to the title, category, brand and rating of the last product with that id |
| Enrichment.NumericId | utils/api_handler.py:89-91 | `int()` of the digits of the product id, `None` where `int()` raises |
| Enrichment.NumericIdIsDigits | utils/api_handler.py:90-91 | the numeric id is the value of the product id's digits; with no digit there is none |
| Enrichment.NumericIdOfCode | utils/api_handler.py:89-91 | a letter prefix followed by the decimal digits of `n` yields `n` |
| Enrichment.P101 | utils/api_handler.py:89-91 | `P101` yields 101 |
| Enrichment.EnrichSalesData | utils/api_handler.py:79-114 | one output per input, in order, with the original fields unchanged; matched exactly when the numeric id is a key, and then the API fields come from that entry, otherwise they are all `None` |
| Enrichment.EnrichOne | utils/api_handler.py:86-110 | the enriched copy of one transaction |
| Enrichment.EnrichOneFacts | utils/api_handler.py:86-110 | an enriched copy keeps the record; it is matched exactly when the numeric id is a key, and then carries that entry's category, brand and rating; otherwise all three are `None` |
| Enrichment.EnrichWithCatalogue | utils/api_handler.py:93-104 | with a mapping built from a catalogue, a transaction matches exactly when some product has its numeric id, and then takes the fields of the last such product |
| Collections.SliceTo | utils/data_processor.py:301 | `s[:n]` is a prefix of `s`, of length `n` when `0 <= n <= |s|`, all of `s` beyond that, and `|s| + n` or nothing for negative `n` |
| Sorting.SortBy | utils/data_processor.py:299 | Python's stable sort with a key; its result is a permutation of the input of the same length |
| Sorting.SortBySorted | utils/data_processor.py:299 | the key sort returns a permutation that is sorted |
| Sorting.SortByStable | utils/data_processor.py:299 | the key sort keeps the input order among elements with equal keys |
| Sorting.SumOfSortBy | utils/data_processor.py:262-268 | sorting does not change the sum of any per-entry value |
| Grouping.GroupBy | utils/data_processor.py:242-253 | the dict an accumulation loop leaves: one entry per key in first-seen order, each with the revenue, count, quantity and members of its transactions |
| Grouping.GroupByIsDict | utils/data_processor.py:242-253 | grouping gives each key once, exactly the keys of the input, and no groups for no input |
| Grouping.GroupByEntries | utils/data_processor.py:242-253 | each group's totals are those of the transactions with its key |
| Grouping.GroupByConserves | utils/data_processor.py:242-253 | group revenues, counts and quantities add up to the input's |
| Text.StripFacts | utils/data_processor.py:130 | `strip()` returns the slice left when white space is cut from both ends: everything cut is white space, and the result neither starts nor ends with white space |
| Text.RemoveFacts | utils/data_processor.py:130 | `replace(",", "")` is the input with exactly its commas filtered out, the other characters kept in order |
| Text.BlankIffAllSpace | utils/data_processor.py:55 | `not s.strip()` holds exactly when every character of `s` is white space (also line 173) |
| Text.SplitFieldsFree | utils/data_processor.py:112 | no field of `line.split("|")` holds a `|` |
| Text.SplitCount | utils/data_processor.py:112-116 | a line splits into one field more than it has `|`, so it has eight fields exactly when it holds seven `|` |
| Text.JoinSplit | utils/data_processor.py:112 | joining the fields of a split with `|` gives the line back, so splitting loses nothing |
| Text.SplitJoin | utils/data_processor.py:112 | splitting `|`-joined fields that hold no `|` gives the fields back |
| Text.ParseInt | utils/data_processor.py:133 | Python's `int()` on text: an optional sign and decimal digits with white space around them, `None` where `int()` raises |
| Text.ParseFloat | utils/data_processor.py:134 | Python's `float()` on plain decimal text, `None` where `float()` raises |
| Text.IntParsesAsFloat | utils/data_processor.py:133-134 | a string that `int()` accepts is accepted by `float()` with the same value |

## Left out

- File reading, the `main` driver, the HTTP fetch of the catalogue, `save_enriched_data` and `generate_sales_report` are not part of this model.
- Every `print` is left out. This includes the counters of `parse_and_clean_data`, and the available regions and amount range of `validate_and_filter`.
- Parsing.ParseAndCleanData: returns its two printed counters as extra results, so that what they count can be stated.
- Text.ParseInt and Text.ParseFloat: accept an optional sign and ASCII digits, with white space around them. A float may also have one `.` with at least one digit in all. Python's underscores, exponents, `inf`/`nan` and non-ASCII digits are not modelled.
- Enrichment.NumericId: counts only ASCII digits as digits. Python's `str.isdigit` also accepts other Unicode digits, some of which `int()` then rejects.
- Floating point is not modelled. Money is exact `real`, so sums do not depend on order and the cross-checks (sales add up to the total) hold exactly.
- Transactions.Round2: rounds half up on exact reals, so its result `r` satisfies `x - 0.005 < r <= x + 0.005`. Python's `round` works on binary floats and rounds exact halves to even, so its bound is closed at the lower end too: `round(0.125, 2)` gives `0.12`, which is exactly `x - 0.005`.
- Customers.CustomerAnalysis: `products_bought` is a set. Python turns it into a list whose order depends on hashing.
- Python's in-place list sort and `dict(sorted(...))` are modelled as a functional stable sort on sequences, with the same keys and the same stability.
- Transactions are typed records. Records missing a key, or holding values of other types, are not modelled. This includes the `txn.get("ProductID", "")` default and the lower-case keys that `parse_and_clean_data` produces.
- Catalogue ids are integers or absent; ids of other JSON types are not modelled. In the source, a float id with an integral value (JSON `101.0`) equals the integer and hashes like it, so it is stored under that key and matches; JSON `true` and `false` likewise match keys 1 and 0; a list or object id raises `TypeError` when it is stored as a dict key (`utils/api_handler.py`, line 65).
