# Sales and logistics dashboard: the computation under the widgets

`main_app.py` is a Streamlit page over a consolidated table of sales and
logistics records (`df_consolidado.csv`). Beneath its widgets sits a small
deterministic pipeline, modelled here as pure Dafny functions over a
`seq<Record>` with exact `real` numbers:

1. `load_data` recomputes each row's total profit (`Utilidad_Total`) as
   price × quantity − unit cost × quantity − shipping (`Records.LoadData`).
2. Four KPIs on the whole loaded table: total sales (the sum of the
   `Precio_Venta_Final` column), total profit, mean NPS over the rows whose
   NPS is not the "no rating" sentinel 0, and the number of "ghost SKU" rows,
   whose category is `No Catalogado (Fantasma)` (`Metrics`).
3. The sidebar city filter keeps the rows whose destination city is
   selected; by default every city is selected (`Views.FilterByCity`).
4. The bar chart receives the profit summed per category over the filtered
   rows, in ascending category order as pandas' `groupby` sorts it
   (`Views.CategoryProfit`); the scatter plot receives the filtered rows with
   a logistics rating above 0 (`Views.Feedback`).
5. The integrity audit shows the five cities with the most ghost-SKU rows, on
   the unfiltered table (`Audits.GhostCityTop5`), and up to ten filtered rows
   with negative profit, most negative first (`Audits.LossAlerts`).

`Dashboard.Render` puts the pieces together as one function of the file's
rows and the city selection.

The pandas operations become small generic modules: `Seqs` (boolean-mask
filter, column sum, `head`), `Sorting` (a stable insertion sort on a real key
for `sort_values`), `Strings` (Python's code-point order on strings) and
`Grouping` (group-by-sum into a table kept sorted by key). `value_counts` is
a group-by-sum of the constant 1 followed by a sort on the negated count.

An empty city selection yields no rows, as `isin` of an empty list does; the
default selection is every distinct city, which returns the table unchanged.

## Model

| member | source | states |
|---|---|---|
| Records.Profit | main_app.py:13-15 | (defined by the formula of lines 13-15) a row's profit is negative exactly when its shipping cost exceeds the unit margin times the quantity |
| Records.LoadData | main_app.py:10-16 | loading keeps the number of rows and every other column of each row, and sets each row's profit to (price − unit cost) × quantity − shipping |
| Records.LoadDataIdempotent | main_app.py:12-15 | every loaded row carries its own recomputed profit, and recomputing again changes nothing |
| Dashboard.ThreeSalesExample | main_app.py:13-15 | prices 100, 50, 10, quantities 2, 1, 5, unit costs 30, 20, 5 and shipping 10, 5, 0 give profits 130, 25, 25, totalling 180 |
| Seqs.SumAppend | main_app.py:25-26 | `.sum()` of a column (Seqs.Sum) over two consecutive blocks of rows is the sum of the two blocks' sums |
| Seqs.Take | main_app.py:66 | `head(n)` keeps min(n, length) elements, and they are the first ones |
| Seqs.Filter | main_app.py:35 | a boolean-mask filter is no longer than its input, every element it keeps passes the mask, and it keeps a sub-multiset of the input |
| Seqs.FilterIdentity | main_app.py:35 | a filter returns its input unchanged exactly when every element passes |
| Seqs.FilterEmpty | main_app.py:35 | a filter returns nothing exactly when no element passes |
| Seqs.FilterIsSubseq | main_app.py:35 | a filter's result is a subsequence of its input (original order kept) |
| Seqs.FilterCount | main_app.py:35 | an element occurs in the result as often as in the input if it passes the mask, and not at all otherwise |
| Metrics.RatedNps | main_app.py:27 | the rows with a non-zero NPS form a subsequence of the table, each with NPS different from 0 |
| Metrics.RatedNpsExact | main_app.py:27 | the rated rows are exactly the rows with NPS ≠ 0: each such row is kept as often as it occurs, any other row not at all |
| Metrics.RatedNpsTotals | main_app.py:27 | there are as many rated rows as positions with NPS ≠ 0, and their NPS values add up to the whole NPS column |
| Seqs.SumFilterZeros | main_app.py:27 | masking out only summands that are zero leaves a column sum unchanged |
| Metrics.MeanNps | main_app.py:27 | the NPS mean is undefined (None) exactly when every row has NPS 0 |
| Metrics.MeanOfRatedOnly | main_app.py:27 | the mean depends only on the rated rows, and when defined it is the sum of the NPS column divided by the number of positions whose NPS is not 0 |
| Metrics.MeanIgnoresUnrated | main_app.py:27 | inserting any number of NPS-0 rows anywhere leaves the mean unchanged |
| Metrics.MeanWithinRange | main_app.py:27 | when every rated answer lies in [lo, hi], so does the mean |
| Metrics.GhostCount | main_app.py:28 | the ghost-SKU count is the number of row positions whose category is exactly "No Catalogado (Fantasma)" |
| Seqs.FilterLength | main_app.py:28 | a boolean-mask filter keeps exactly as many rows as there are positions that pass the mask |
| Metrics.TotalSales | main_app.py:25 | the displayed sales total (sum of the per-unit price column) equals the revenue Σ price × quantity when every row sells one unit, and is at most the revenue when prices are not negative and every row sells at least one unit |
| Metrics.SalesAgainstRevenue | main_app.py:25 | the price-column sum against the price × quantity sum: equal at unit quantities, no larger with non-negative prices and quantities of at least 1 |
| Metrics.TotalProfit | main_app.py:26 | on rows that carry their derived profit, total profit is total revenue minus total cost of goods minus total shipping |
| Metrics.ProfitDecomposes | main_app.py:26 | on rows that carry their derived profit, the profit column sum splits into revenue, cost of goods and shipping sums |
| Dashboard.ComputeKpis | main_app.py:25-28 | the KPI record: total sales is the price-column sum, equal to revenue at unit quantities and at most revenue with non-negative prices and quantities of at least 1; total profit is revenue less costs on derived rows; the NPS mean is undefined exactly when every NPS is 0 and otherwise is the NPS column sum over the number of non-zero answers; the ghost-SKU count is the number of ghost-category positions |
| Metrics.SalesBelowProfit | main_app.py:25-26 | as written, one sale of 2 units at 100 with unit cost 10 shows total sales 100 but total profit 180 |
| Metrics.TotalRevenue | main_app.py:13-15 | the corrected sales figure, Σ price × quantity, is not negative when prices and quantities are not negative (its tie to profit is in Metrics.ProfitIsRevenueLessCosts) |
| Metrics.ProfitIsRevenueLessCosts | main_app.py:13-15 | total profit equals total revenue (price × quantity) minus total cost of goods minus total shipping |
| Metrics.ProfitAtMostRevenue | main_app.py:13-15 | with non-negative costs and quantities, total profit never exceeds total revenue |
| Views.Cities | main_app.py:34 | the multiselect options contain every row's city and only cities that occur in some row |
| Dashboard.DefaultSelection | main_app.py:34-35 | with the default selection the city filter returns the loaded table unchanged |
| Views.FilterByCity | main_app.py:35 | the city filter returns no more rows than it is given, only rows whose city is selected, and a sub-multiset of the table (exact multiplicities in Views.FilterByCityExact) |
| Views.FilterByCityExact | main_app.py:35 | the city filter returns a subsequence of the table whose rows all have a selected city, and keeps every such row as often as it occurs |
| Views.DefaultSelectionIsIdentity | main_app.py:34-35 | selecting every distinct city, the default, returns the table unchanged |
| Views.EmptySelectionIsEmpty | main_app.py:35 | an empty selection returns no rows |
| Views.CategoryProfit | main_app.py:43 | the bar-chart table has strictly increasing category keys, exactly the categories present, and entries adding up to the total profit (per-category sums in Views.CategoryProfitTable) |
| Grouping.GroupSum | main_app.py:43 | the group-by-sum table has strictly increasing keys, exactly the keys present in the rows, entries adding up to the column total, and for every key the sum over that key's rows |
| Grouping.GroupSumEntries | main_app.py:43 | each entry of a group-by-sum table is the column sum over the rows of its own key |
| Views.CategoryProfitTable | main_app.py:43 | one entry per category present, in ascending order, each holding its category's total profit; the entries add up to the total profit of the rows; the table is empty exactly when there are no rows |
| Views.Feedback | main_app.py:52 | the scatter-plot rows are no more than the filtered rows, all rated above 0, and a sub-multiset of them (exact multiplicities in Views.FeedbackExact) |
| Views.FeedbackExact | main_app.py:52 | the feedback rows are a subsequence of the filtered rows, all rated above 0, and every such row is kept as often as it occurs |
| Sorting.SortBy | main_app.py:70 | sorting returns a permutation of its input in non-decreasing key order |
| Sorting.TakeSmallest | main_app.py:70 | the first n elements of a sorted sequence have keys no greater than any element left out |
| Sorting.SortBySum | main_app.py:66 | sorting leaves every column sum unchanged |
| Audits.GhostRows | main_app.py:65 | the ghost rows are a subsequence of the table holding each ghost-category row as often as it occurs and no other row |
| Audits.GhostCityCounts | main_app.py:66 | the value_counts table lists counts in non-increasing order (entries, keys and sum in Audits.GhostCityCountsCorrect) |
| Audits.GhostCityCountsCorrect | main_app.py:65-66 | each value_counts entry is a ghost city with its number of ghost rows (at least 1); every ghost city has exactly one entry; counts never increase along the list; they add up to the ghost-SKU count |
| Audits.GhostCityTop5 | main_app.py:66 | `head(5)` keeps min(5, number of counts) entries and they are the first ones of the full counts |
| Audits.GhostCityTop5Correct | main_app.py:65-66 | exactly min(5, number of ghost cities) entries, each a ghost city with its count, distinct, non-increasing; no unlisted ghost city has more ghost rows than a listed one; with at most 5 ghost cities all are listed; the listed counts add up to at most the ghost-SKU count |
| Audits.Losses | main_app.py:70 | the loss rows are a subsequence of the filtered rows holding each row with negative profit as often as it occurs and no other row |
| Audits.LossAlerts | main_app.py:70 | min(10, number of losses) alerts, the first ones of the losses sorted by profit (contents in Audits.LossAlertsCorrect) |
| Audits.LossAlertsCorrect | main_app.py:70 | min(10, number of losses) alerts, all with negative profit and drawn from the filtered rows, in ascending profit; no loss left out is below a listed one; with at most 10 losses all are listed |
| Dashboard.Render | main_app.py:25-71 | the rendered view: the filtered rows are a subsequence of the loaded table holding each row of a selected city as often as it occurs and no other row; the KPI cards are the KPIs of the whole loaded table (Dashboard.ComputeKpis) and the ghost-city panel its top-5 counts (Audits.GhostCityTop5Correct); the bar table, feedback points and loss alerts are the category profit table (Views.CategoryProfitTable), the feedback rows (Views.FeedbackExact) and the loss alerts (Audits.LossAlertsCorrect) of the filtered rows; the bars add up to the filtered profit, with at most 5 ghost-city entries and at most 10 alerts |
| Dashboard.RenderConsistent | main_app.py:25-71 | for any selection the category bars add up to the profit of the selected rows, feedback and alerts come from the selected rows, and the KPIs and ghost-city table do not depend on the selection |
| Dashboard.DefaultViewMatchesKpis | main_app.py:26-43 | with the default selection the charts see the whole table and the category bars add up to the total-profit KPI; the ghost-city table adds up to at most the ghost-SKU KPI |

## Findings

| source | as written | input that shows it | evidently intended | confidence | as-written member | corrected member |
|---|---|---|---|---|---|---|
| main_app.py:25 | "Ventas Totales" sums `Precio_Venta_Final`, a per-unit price (lines 13-15 multiply it by `Cantidad_Vendida`), so quantities are ignored | one sale of 2 units at 100, unit cost 10, shipping 0: total sales 100, total profit 180 | total sales as the sum of price × quantity, the revenue the profit column is computed from | medium (not executed) | Metrics.SalesBelowProfit | Metrics.ProfitIsRevenueLessCosts |

The corrected total is `Metrics.TotalRevenue`; `Metrics.ProfitAtMostRevenue`
proves that with it profit cannot exceed sales when unit costs, quantities
and shipping costs are not negative. `Dashboard.Kpis.totalSales`
keeps the as-written figure, because that is the number the page displays.

## Left out

- Page configuration, titles, columns, sidebar and multiselect widgets, metric cards, `st.table`/`st.dataframe` rendering and the success banner (main_app.py:6, 21-24, 30-33, 38-73): presentation only; the tables they are given are modelled.
- Plotly chart construction (main_app.py:43-47, 53-56): a foreign charting library; only the tables handed to it are modelled.
- `pd.read_csv` and the `@st.cache_data` memoisation (main_app.py:9-11): file I/O and framework caching; the model takes the file's rows as a parameter.
- Display formatting (`$` with thousands separators, `round(..., 2)`) and IEEE floating point: values are exact reals.
- Missing values (NaN) in any column and pandas' skipping of them: every cell is a present number or string.
- Column projection of the loss table to four columns (main_app.py:71): display only; whole rows are returned.
- The order of the multiselect options (`unique()` gives first-appearance order): the selection is a set, which is all `isin` uses.
- Tie order in `value_counts().head(5)` and `sort_values(...).head(10)`: pandas does not promise one, so no lemma states one (the model's sort happens to be stable).
- Audits.GhostCityCounts: counts are carried as reals (a group-by-sum of 1.0) rather than integers; each is proved equal to the integer number of rows.
- Schema validation and date parsing: main_app.py does none; a malformed file is not part of this model.
- The agricultural-yield dashboard and the AI-summary prompt builder and client are not part of this model: their source files are not among those modelled.
