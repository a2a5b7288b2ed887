# Retail sales dashboard: the data pipeline, verified

This project models the data pipeline behind the Streamlit retail-sales
dashboard (`dashboard/retail_dashboard_streamlit.py`), which works on the
Online Retail invoice-line data set. The pipeline runs in three stages:

1. Cleaning.
   - Rows without a CustomerID are dropped.
   - Only sales lines are kept (Quantity > 0 and UnitPrice > 0).
   - Each row gets two derived columns: `TotalPrice = Quantity * UnitPrice`,
     and `Month`, the first instant of the row's calendar month.
2. Sidebar filters.
   - The country selector offers "All" and the countries present.
   - An exact-match country filter is applied unless "All" is chosen.
   - An inclusive date-range filter is applied.
3. Reports, each a pure function of the filtered rows.
   - Four KPIs: revenue, distinct orders, distinct customers, average order value.
   - Revenue by month.
   - The top 10 products by units sold.
   - The top 10 countries by revenue.
   - Revenue per country.
   - The 300 most recent order lines.

Files:

- `wrappers.dfy`: `Option`, which models a missing cell.
- `seqs.dfy`: a generic order-preserving `Filter`, with these lemmas:
  - the result is a subsequence of the input;
  - filtering is idempotent;
  - two filters commute;
  - two filters fuse into one.
- `orders.dfy`: strict total orders, and Python's string `<` proved to be one.
- `calendar.dfy`:
  - valid calendar dates, and timestamps with nanosecond time of day;
  - chronological order;
  - `Midnight` (`pd.Timestamp(day)`);
  - `MonthStart` (`to_period('M').to_timestamp()`).
- `grouping.dfy`: pandas `groupby` with the defaults the dashboard relies on:
  - keys come out ascending, one group per key;
  - rows with a missing key belong to no group;
  - each group keeps its rows in their original order;
  - `Aggregate` applies a per-group aggregation.
- `sorting.dfy`:
  - `IsTopN`, the specification of `sort_values(...).head(n)`, which allows any order among tied elements;
  - `TopN`, a function that meets it, built on an insertion sort.
- `pipeline.dfy`:
  - the loaded row (`RawRow`) and the cleaned row (`Record`);
  - cleaning;
  - the country list;
  - the country and date filters, with the date bound both as written and corrected;
  - `PrepareView`, a method that rebinds the frame step by step as the script does, with the date bound as written;
  - `View`, the same selection with the end day included in full.
- `reports.dfy`: the KPIs, the grouped tables, the top-10 lists and the recent-orders table.
- `worked_example.dfy`: a three-invoice data set with its KPIs and monthly revenue
  worked out, and a concrete input for the date-bound finding below.

Money is `real`, so sums are exact. Quantity is an unbounded `int`.

## Model

| member | source | states |
|---|---|---|
| Pipeline.Clean | dashboard/retail_dashboard_streamlit.py:34-39 | Every surviving row has a customer, a positive quantity and price, and correctly derived columns. Every such row of the input survives. The kept rows are exactly `Filter(raw, Keep)`, in their original order (a subsequence of the input). |
| Pipeline.Derive | dashboard/retail_dashboard_streamlit.py:36-39 | Deriving a record loses nothing of the loaded row (`ToRaw` inverts it). A sales row yields a clean record: `TotalPrice = Quantity * UnitPrice` and `Month = MonthStart(InvoiceDate)`. |
| Calendar.MonthStart | dashboard/retail_dashboard_streamlit.py:39 | The month start has the row's year and month. It is at or before the row's timestamp, and at or before every timestamp of that month. |
| Calendar.MonthStartSameMonth | dashboard/retail_dashboard_streamlit.py:39 | Two timestamps share a month start if and only if they share year and month. |
| Calendar.MonthStartIdempotent | dashboard/retail_dashboard_streamlit.py:39 | Truncating an already truncated month changes nothing. |
| Calendar.MonthStartMonotone | dashboard/retail_dashboard_streamlit.py:39 | Truncation to months keeps chronological order. |
| Calendar.Midnight | dashboard/retail_dashboard_streamlit.py:52 | `pd.Timestamp(day)` is on that day and at or before every instant of it. |
| Calendar.BeforeIsStrictTotalOrder | dashboard/retail_dashboard_streamlit.py:52 | Chronological order on timestamps is a strict total order. |
| Orders.StringLessIsStrictTotalOrder | dashboard/retail_dashboard_streamlit.py:43 | Python's `<` on strings, which `sorted` and `groupby` use, is a strict total order. |
| Pipeline.CountryChoices | dashboard/retail_dashboard_streamlit.py:43 | The choices are "All" followed by the present countries in strictly ascending order, so each appears once. Every choice after "All" is some row's country, and every present country is offered. |
| Pipeline.KeepCountry | dashboard/retail_dashboard_streamlit.py:50 | `df[df['Country'] == country_sel]` keeps every copy of each row whose country equals the selection and no other row; a row with no country never matches. |
| Pipeline.CountryFilter | dashboard/retail_dashboard_streamlit.py:49-50 | With "All" the frame is unchanged. Otherwise every remaining row has exactly the selected country, and every row with that country remains, as many times as in the input. The result is a subsequence of the input. |
| Pipeline.CountryFilterIdempotent | dashboard/retail_dashboard_streamlit.py:49-50 | Applying the country filter twice equals applying it once. |
| Pipeline.AsWrittenVersusDays | dashboard/retail_dashboard_streamlit.py:52 | The bound as written keeps a row iff the inclusive day range does and the row is not on the end day after midnight. |
| Pipeline.DateFilterAsWritten | dashboard/retail_dashboard_streamlit.py:52 | The bound as written keeps every copy of each row stamped from midnight of the start day to midnight of the end day, and no other row, in their original order. |
| Pipeline.DateFilter | dashboard/retail_dashboard_streamlit.py:52 | The corrected filter keeps every copy of each row dated from the start day to the end day inclusive, and no other row, in their original order. |
| Pipeline.DateFilterIdempotent | dashboard/retail_dashboard_streamlit.py:52 | Applying the date filter twice equals applying it once. |
| Pipeline.FiltersCommute | dashboard/retail_dashboard_streamlit.py:49-52 | The country filter and the date filter give the same rows in either order. |
| Pipeline.Earliest | dashboard/retail_dashboard_streamlit.py:46 | `InvoiceDate.min()` is some row's timestamp and at or before every row's. |
| Pipeline.Latest | dashboard/retail_dashboard_streamlit.py:46 | `InvoiceDate.max()` is some row's timestamp and at or after every row's. |
| Pipeline.DefaultRangeKeepsAll | dashboard/retail_dashboard_streamlit.py:46-52 | With the picker's default range (earliest to latest day), the corrected date filter keeps every row. |
| Pipeline.DefaultRangeAsWrittenDropsLastDay | dashboard/retail_dashboard_streamlit.py:46-52 | With the default range, the filter as written drops every row of the latest day stamped after midnight, which the corrected filter keeps. |
| Pipeline.ViewAsWritten | dashboard/retail_dashboard_streamlit.py:34-52 | The rows the reports see, with line 52's bound as written. Every result row is clean, of the selected country, and stamped from midnight of the start day to midnight of the end day. Each cleaned row meeting these conditions appears as many times as in the cleaned frame, and no other row appears. Every input row meeting them is in the result. The result is a subsequence of the cleaned rows. |
| Pipeline.PrepareView | dashboard/retail_dashboard_streamlit.py:34-52 | Rebinding `df` step by step (drop missing customers, keep sales, derive columns, filter by country unless "All", filter by date with line 52's bound) yields exactly `ViewAsWritten`. |
| Pipeline.View | dashboard/retail_dashboard_streamlit.py:34-52 | The same selection with the end day included in full: every copy of each cleaned row dated from the start day to the end day and of the selected country, and no other row, in their original order. |
| Pipeline.ViewAsWrittenDropsLateEndDay | dashboard/retail_dashboard_streamlit.py:52 | The script's rows are exactly the corrected view minus the rows stamped after midnight on the end day. |
| Reports.RevenueAppend | dashboard/retail_dashboard_streamlit.py:55 | `TotalPrice.sum()` adds up over a concatenation of frames. |
| Reports.RevenueSplits | dashboard/retail_dashboard_streamlit.py:55 | The revenue of the rows a mask keeps plus that of the rows it drops is the total revenue. |
| Reports.UnitsAppend | dashboard/retail_dashboard_streamlit.py:80 | `Quantity.sum()` adds up over a concatenation of frames. |
| Reports.RevenuePositive | dashboard/retail_dashboard_streamlit.py:55 | Total revenue is 0 for no rows and strictly positive for any nonempty set of cleaned rows. |
| Reports.TotalOrders | dashboard/retail_dashboard_streamlit.py:56 | `nunique` of InvoiceNo is the number of distinct invoice numbers. It is at most the row count and 0 exactly when there are no rows. |
| Reports.TotalCustomers | dashboard/retail_dashboard_streamlit.py:57 | `nunique` of CustomerID is the number of distinct customer ids. It is at most the row count and 0 exactly when there are no rows. |
| Reports.AvgOrderValue | dashboard/retail_dashboard_streamlit.py:58 | 0 when there are no orders, otherwise revenue divided by the order count. It is strictly positive on nonempty cleaned rows. |
| Reports.Average | dashboard/retail_dashboard_streamlit.py:58 | The quotient times the count gives back the total; a positive total gives a positive average. |
| Reports.MonthlyRevenue | dashboard/retail_dashboard_streamlit.py:71 | Months strictly ascending, one entry per month present. Each entry is the revenue of exactly that month's rows, and the entries add up to the total revenue. |
| Reports.GroupedRevenueAddsUp | dashboard/retail_dashboard_streamlit.py:71 | For any grouping key, the per-group revenues add up to the revenue of the rows whose key is present. |
| Reports.CountryRevenue | dashboard/retail_dashboard_streamlit.py:97 | Countries strictly ascending, each once, with each entry the revenue of exactly that country's rows. The entries add up to the revenue of the rows that have a country, which is the total revenue when every row has one. |
| Reports.ProductUnits | dashboard/retail_dashboard_streamlit.py:80 | One entry per present Description, ascending, each the units of exactly that product's rows. Rows without a description are in no group. |
| Reports.TopProducts | dashboard/retail_dashboard_streamlit.py:80-81 | Holds min(10, products) entries of the units table, each key once, by non-increasing units. No product left out sold more than the last one listed. Each entry is the units sold of that product. |
| Reports.TopCountries | dashboard/retail_dashboard_streamlit.py:89-90 | Holds min(10, countries) entries of the revenue-per-country table, each key once, by non-increasing revenue. No country left out earned more than the last one listed. Each entry is that country's revenue. |
| Reports.RecentOrders | dashboard/retail_dashboard_streamlit.py:105-107 | Is the projection of a top-300 selection of the rows by latest InvoiceDate (`IsTopN`, copies counted). Has min(300, rows) rows, by non-increasing InvoiceDate. Each is a filtered row projected onto the eight listed columns, and no row left out is later than the last one listed. |
| Reports.ProjectAll | dashboard/retail_dashboard_streamlit.py:106 | Selecting the eight columns keeps the row count and projects each row in place. |
| Grouping.GroupBy | dashboard/retail_dashboard_streamlit.py:71 | `groupby` gives strictly ascending keys, exactly the present keys. Each key's group holds exactly the rows with that key, in their original order. |
| Grouping.GroupRows | dashboard/retail_dashboard_streamlit.py:71 | Every group is nonempty and holds exactly the rows carrying its key. |
| Grouping.AddRow | dashboard/retail_dashboard_streamlit.py:71 | Adding a row to ascending groups keeps them ascending and adds its key. Only that key's group gains the row. |
| Sorting.Sort | dashboard/retail_dashboard_streamlit.py:81 | The result is ordered by the given total preorder and is a permutation of the input. |
| Sorting.TopN | dashboard/retail_dashboard_streamlit.py:81 | `sort_values(...).head(n)` meets `IsTopN`: min(n, size) ordered elements drawn from the input (a sub-multiset of it), and every copy left out ranks no higher than the last kept. |
| Seqs.Filter | dashboard/retail_dashboard_streamlit.py:37 | Boolean-mask selection keeps every copy of each element satisfying the mask, and nothing else. |
| Seqs.FilterCount | dashboard/retail_dashboard_streamlit.py:37 | A selected element occurs as often in the result as in the input; any other element does not occur. |
| Seqs.FilterIsSubsequence | dashboard/retail_dashboard_streamlit.py:37 | A mask selection never reorders or invents rows. |
| Seqs.FilterFuse | dashboard/retail_dashboard_streamlit.py:34-37 | Dropping missing customers and then non-sales equals one selection by the conjunction. |
| Seqs.FilterCommutes | dashboard/retail_dashboard_streamlit.py:49-52 | Two mask selections commute. |
| Seqs.FilterIdempotent | dashboard/retail_dashboard_streamlit.py:49-52 | A mask selection applied twice equals one application. |
| WorkedExample.ExampleRevenue | dashboard/retail_dashboard_streamlit.py:49-55 | On sales of 10 and 10 in the United Kingdom and 6 in France, revenue is 26, and 20 with the United Kingdom selected. |
| WorkedExample.ExampleOrders | dashboard/retail_dashboard_streamlit.py:56-58 | On the three invoices, there are 3 orders and the average order value is 26/3. |
| WorkedExample.ExampleMonthly | dashboard/retail_dashboard_streamlit.py:71 | On the same data, monthly revenue is 20 for January 2011 and 6 for February 2011. |
| WorkedExample.ExampleLastDay | dashboard/retail_dashboard_streamlit.py:52 | On the default range, a sale at 12:50 on the last day is dropped as written and kept by the corrected filter. |

## Left out

- Loading the spreadsheet (line 30) is I/O. The model takes the loaded rows as input (`RawRow`).
- `pd.to_datetime` and `astype(int)` (lines 35-36) are library conversions, and the source has no error handling around them. Rows arrive with parsed timestamps and integer customer ids, and no error path is modelled.
- The conversion of CustomerID to int is applied to every row at line 36, before the positivity filter of line 37. The model derives it together with the other columns after that filter. Filtering does not look at the id, so the kept rows are the same.
- Floating-point money: prices and totals are exact `real`s, so float rounding in sums and in the average is not reproduced.
- Reports.TopProducts: summed quantities are unbounded integers rather than pandas' 64-bit integers, because the data cannot come near overflow.
- Display formatting of the KPIs (lines 62-65), page styling, widgets, columns and markdown (lines 9-27, 42-47, 60-68) are user interface.
- Rendering is left out: every Plotly chart and the choropleth's lookup of country names (lines 72-74, 82-85, 91-93, 98-101, 108).
- Pipeline.Earliest, Pipeline.Latest: they require a nonempty frame. On an empty frame pandas' `min()`/`max()` give NaT and the date picker at line 46 fails, which the model does not reproduce.
- Streamlit's rerun model is left out, including the date picker returning a one-element tuple while a range is half-picked (line 52 would then index out of range). The model takes both ends of the range as parameters.
- Sorting.TopN, Reports.TopProducts, Reports.TopCountries and Reports.RecentOrders: `sort_values` is not stable, so ties may come out in any order. The contracts state `IsTopN` and the top-10 and recent-order properties, which allow every tie order; the function bodies pick one order. The model does not predict pandas' exact order among ties.
- A country literally named "All" cannot be selected on its own (line 49 treats the choice as "no filter"). The model reproduces this: `CountryFilter` with `AllCountries` is the identity.

## Findings

| source | as written | input that shows it | evidently intended | confidence | as-written member | corrected member |
|---|---|---|---|---|---|---|
| dashboard/retail_dashboard_streamlit.py:52 | The upper bound is `pd.Timestamp(date_range[1])`, which is midnight at the start of the end day, so rows later on the end day are excluded. | The default range runs from the earliest to the latest day. A sale on that latest day at 12:50 is dropped, even though the picker shows the day as included (`WorkedExample.ExampleLastDay`). | The end day is included in full, as an inclusive date range and the default range (all data) promise. | medium; not executed | Pipeline.DefaultRangeAsWrittenDropsLastDay | Pipeline.DefaultRangeKeepsAll |

`Pipeline.DateFilterAsWritten` models the bound exactly as line 52 writes it, and `Pipeline.AsWrittenVersusDays` characterises what it loses. `Pipeline.PrepareView` follows the script and yields `Pipeline.ViewAsWritten`. `Pipeline.View` is the corrected selection, built on `Pipeline.DateFilter`. `Pipeline.ViewAsWrittenDropsLateEndDay` proves that the two differ exactly by the rows stamped after midnight on the end day. Every report is a function of whichever rows it is given.
