# SmartCRM RFM dashboard — verified model of its table logic

SmartCRM is a one-page Streamlit dashboard over a customer table. Each row
carries a segment label and three RFM metrics: Recency, Frequency, Monetary.
Apart from widgets and charts, the script does a little table logic, and
this project models it:

- **Segment discovery.** It takes the distinct labels of the Segment column, in
  order of first appearance. These are the options of the segment picker, and
  by default all are selected.
- **Segment filter.** It keeps the rows whose label is selected, in table order.
- **Key metrics.** It computes Total Customers and the mean of each RFM column,
  for the filtered table and for each selected segment's own rows. An empty
  table has no mean: the model returns `None` and does not fail.
- **Top N by Monetary.** It sorts the filtered rows by Monetary, descending, and
  keeps the first N. N is a slider value from 5 to 50 (default 10), modelled
  as the subset type `TopN.SliderValue`, so every use of N is in range by typing.
- **Insight cards.** Two fixed tables give advice text and a card colour for five
  known segments. Any other label gets `""` and `"#f0f2f6"`. A nested loop lays
  the cards out two per row.

Modules: `Records` (the row type), `Segments` (unique, filter), `Aggregates`
(sums, means, counts), `TopN` (sort and head), `Insights` (the lookup tables),
`Cards` (the layout loop, the one imperative part), and `Dashboard` (one pass of
the script). Numbers are exact `real`s, not floats.

The table's sort is not stable, so ties on Monetary may come out in any order.
The model therefore promises nothing about the order of ties. A stable
tie-break would be a stronger promise than the script makes, so the model
does not make it. Its insertion sort happens to pick the stable result
(tied rows stay in table order). No contract states this, and `Dashboard.Run`
passes that one choice on through `ViewOf`. What the model does promise is
`TopN.IsTopSelection`, and `TopN.TopUniqueUpToTies` shows that every result
meeting it has the same Monetary column.

## Model

| member | source | states |
|---|---|---|
| Segments.Unique | app.py:39 | the labels have no duplicates; a label is listed iff some row carries it; the labels come in order of first appearance in the table |
| Segments.DefaultSelectionKeepsAll | app.py:39-47 | with the default selection (every distinct label) the filter returns the whole table unchanged |
| Segments.Filter | app.py:47 | a row is in the result iff it is in the table and its segment is selected; the result is no longer than the table |
| Segments.FilterAppend | app.py:47 | filtering commutes with concatenation, so the kept rows stay in table order |
| Segments.FilterSingleton | app.py:47 | a single row is kept iff its label is selected |
| Segments.FilterMultiplicity | app.py:47 | each selected row is kept exactly as often as it occurs; an unselected row never appears |
| Segments.FilterNothingSelected | app.py:47 | an empty selection yields an empty table, not the whole table |
| Segments.FilterAllSelected | app.py:47 | when every row's label is selected, the filter returns the table unchanged |
| Segments.SegmentRows | app.py:133 | the rows of one segment are exactly the rows carrying that label |
| Segments.SegmentOfFiltered | app.py:133 | a selected segment's rows in the filtered table are that segment's rows in the whole table |
| Aggregates.Mean | app.py:75-77 | there is no mean iff the table is empty; otherwise mean times count equals the column total |
| Aggregates.Summarize | app.py:74-77 | Total Customers is the row count, and each average is that column's mean (None on an empty table) |
| Aggregates.SummarizeEmpty | app.py:74-77 | an empty table gives a count of 0 and no averages, without failing |
| Aggregates.MeanBounds | app.py:75-77 | a mean lies between any lower and upper bound of its column's values |
| Aggregates.SegmentCountsPartition | app.py:133-146 | over distinct labels, the per-segment counts add up to the size of the table filtered to those labels |
| Aggregates.FilterIdempotent | app.py:47 | filtering an already filtered table again with the same selection changes nothing |
| Aggregates.CardCountsAddUp | app.py:74-146 | for a selection without repeats, the card counts add up to Total Customers |
| TopN.Insert | app.py:101 | inserting into a descending sequence keeps it descending and adds exactly that row |
| TopN.SortDescending | app.py:101 | the result is in descending Monetary order and is a permutation of the input; tie order is not stated |
| TopN.Top | app.py:101 | length is min(N, rows); descending in Monetary; a sub-multiset of the rows; no omitted row has a larger Monetary than a kept row |
| TopN.PrefixIsTop | app.py:101 | a head of any descending permutation of the rows meets the Top N definition |
| TopN.TopOfWholeTable | app.py:101 | when N is at least the number of rows, the result is all rows, reordered |
| TopN.TopUniqueUpToTies | app.py:101 | two results meeting the Top N definition have the same length and the same Monetary value at every position |
| TopN.TopOneIsStrictMaximum | app.py:101 | a row whose Monetary is strictly above every other row's is the whole top 1 table |
| TopN.TopCannotExceed | app.py:101 | at each position, one Top N result's Monetary cannot exceed another's |
| Insights.Get | app.py:138 | dictionary get with a default: the entry when the key is present, the default otherwise |
| Insights.InsightFor | app.py:110-116 | each of the five known segments gets its own advice text; any other label gets the empty string |
| Insights.ColorFor | app.py:119-125 | each of the five known segments gets its own colour; any other label gets #f0f2f6 |
| Insights.TablesAgree | app.py:110-125 | both tables cover exactly the five known segments, and a known segment never gets either default |
| Cards.CardAt | app.py:131-150 | card k shows selected segment k in row k/2, column k mod 2, with that segment's summary, colour and advice |
| Cards.LayoutCards | app.py:128-133 | the nested loop emits one card per selected index, in increasing order, each equal to CardAt; it opens ceil(n/2) rows and never indexes out of range |
| Cards.AtMostTwoPerRow | app.py:128-131 | no three cards share a row |
| Cards.RowMajorOrder | app.py:128-131 | a later card is never in an earlier row, and within a row it is in a later column |
| Cards.CardCountTotalIsSegmentCounts | app.py:146 | cards that each count their own segment's rows add up to the per-segment counts |
| Dashboard.ViewOf | app.py:39-101 | for one selection: the picker options are the distinct labels of the table, the filtered table holds exactly the selected rows, Total Customers is its size, and the top table meets the Top N definition on it |
| Dashboard.DefaultSelectionView | app.py:39-101 | with the default selection the filtered table is the whole table; Total Customers is its size; the top table has min(N, size) rows |
| Dashboard.EmptySelectionView | app.py:47-101 | with nothing selected the filtered table and the top table are empty, and the metrics are 0 with no averages |
| Dashboard.Run | app.py:39-154 | one pass builds the view from the current selection and one card per selected segment; without repeated labels, the card counts add up to Total Customers |
| Dashboard.ExampleFilterAndMean | app.py:47-77 | on a table of two A rows and one B row, selecting A keeps exactly the two A rows, in order, and their mean Monetary is 75 |
| Dashboard.ExampleTop | app.py:101 | on the same table, the top 1 customer by Monetary is the B row |

## Left out

- Page configuration, title, tabs, the "Show Raw Data" checkbox, and metric/dataframe/markdown rendering (app.py:10-23, 52-74, 154): these are user interface only.
- The segment multiselect and the slider as widgets (app.py:40-45): the selection is an input sequence, and the slider value is typed `SliderValue` (5..50, default 10).
- CSV loading and its `cache_data` caching (app.py:28-32), and the CSV download (app.py:61-66): these are file I/O and library serialisation.
- The pie chart and the box plots (app.py:79-98): these are charting libraries.
- `round(..., 2)` on the means, floating point and NaN handling (app.py:75-77, 147-149): means are exact reals, and `None` stands for the undefined mean of an empty table.
- The HTML text of each card (app.py:136-152): this is presentation; the card keeps its data fields (label, summary, colour, advice).
- TopN.SortDescending: does not promise any order among rows with equal Monetary, because the sort the script uses is not stable.
- The customer identifier and other columns: the logic never reads them.
