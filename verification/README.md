# Pink morsel sales: extract transform and dashboard chart

A Dafny model of the two parts of the Quantium starter repository that do
real work:

- **The sales-extract transform** (`data/task2.py`). It takes three daily
  sales extracts of rows `(date, region, product, quantity, price)`, one
  after another. It keeps only the rows whose product is exactly
  `"pink morsel"`. It deletes every `$` and `,` from the price text and
  reads what is left as a number. It derives `sales = price * quantity`
  and keeps only `(date, region, sales)`. If a kept row's price cannot be
  read, the run stops and writes nothing. Here this is `Pipeline(e0, e1,
  e2)`, which is `None` in that case.
- **The dashboard's chart construction** (`app.py`). `create_subplot`
  turns the table and the selected region into a figure:
  - one stacked panel per region ("all" means every region of the table,
    in order of first appearance);
  - in each panel, a line of that region's rows, a dashed vertical line at
    the price increase of 2021-01-15 and a "Price Increase" label;
  - a height of 300 pixels per panel.

  `update_chart` rebuilds the chart whenever the region selector changes.
  The page starts on "all".

Files and modules:

- `wrappers.dfy` has `Option`.
- `text.dfy` (module `Text`) has digit strings, the decimal spelling of a
  natural number, and ASCII `str.capitalize`.
- `currency.dfy` (module `Currency`) covers the price column:
  - the `$`/`,` cleaner;
  - a lexer and parser for decimal literals, valued exactly as `real`;
  - the extracts' currency format (`"$1,234.56"`), used as the parser's
    partner in a round-trip lemma.
- `pipeline.dfy` (module `SalesPipeline`) is the transform, step by step,
  as functions on sequences of row datatypes. The script has no loops:
  each step is a whole-column operation.
- `dashboard.dfy` (module `Dashboard`) holds the region list, the row
  selection and the figure datatype, plus three things built on them:
  - the `Subplot` specification function;
  - the `CreateSubplot` method, whose loop appends one trace, one marker
    line and one marker label per region, as the source's loop does;
  - `UpdateChart` and the initial page.
- `dashboard_properties.dfy` (module `DashboardProperties`) proves what the
  chart promises about `Subplot`.
- `end_to_end.dfy` (module `EndToEnd`) connects the two: it charts the
  table the transform writes, and it works through a three-extract
  example.

The dashboard's module-level `df` and `regions` (app.py:11-13) are
parameters. The lemmas take `regions == Regions(df)`, which is what
`df["region"].unique()` computes.

A region that is absent from a non-empty table gets one empty panel
(`SingleRegionChart`). Choosing "all" on an empty table asks
`make_subplots` for a grid of zero rows, which plotly rejects, so
`Subplot` is `None` exactly then (`SubplotFailsIff`).

The price-increase line (app.py:57-66) is drawn with `y0=0`, `y1=1` and
`yref="y<i>"`. Those are data coordinates of panel i's sales axis, so the
line runs from sales 0 to sales 1 rather than over the panel's height; a
line over the whole panel would use `"y<i> domain"`. The label next to it
is placed in paper coordinates at the top of its panel (app.py:69-77),
which shows the panel-relative placement the code evidently means. The
model keeps the values as written (`MarkerLines`).

## Model

| member | source | states |
|---|---|---|
| Text.NatToString | app.py:64 | The panel number in the axis name `y{i}` is spelled with digits only. The spelling is non-empty and reads back as the number. It starts with '0' only for 0, which is spelled "0". |
| Text.NatToStringInjective | app.py:64 | Different panel numbers are spelled differently. |
| Text.Capitalize | app.py:36 | `str.capitalize` gives a string that is capitalized (no lower-case first letter, no upper-case letter after it). It equals the input up to letter case. |
| Text.CapitalizedFormUnique | app.py:36 | Only one capitalized string equals a given string up to case, so `Capitalize` is determined by its contract. |
| Text.CapitalizeIdempotent | app.py:50 | Capitalizing an already capitalized region name changes nothing. |
| Currency.StripCounts | data/task2.py:15 | After cleaning, `$` and `,` occur zero times. Every other character occurs as often as before. |
| Currency.StripAppend | data/task2.py:15 | Cleaning a concatenation cleans each part, so kept characters stay in their order. |
| Currency.StripUnmarked | data/task2.py:15 | Text with no `$` and no `,` is left unchanged. |
| Currency.StripRemovesMarks | data/task2.py:15 | No position of the cleaned price holds a `$` or a `,`. |
| Currency.StripIdempotent | data/task2.py:15 | Cleaning twice is the same as cleaning once. |
| Currency.StripLength | data/task2.py:15 | The cleaned price is shorter by exactly the number of `$` plus the number of `,`. |
| Currency.LexSound | data/task2.py:15 | Whatever the lexer accepts is a valid decimal literal whose text is exactly the input. |
| Currency.LexRender | data/task2.py:15 | The lexer recovers every valid decimal literal from its text. This is the inverse direction. |
| Currency.ParsePriceAccepts | data/task2.py:15 | A cleaned price parses if and only if it is the text of a valid decimal literal. Its value is then that literal's value. |
| Currency.StripGroupThousands | data/task2.py:15 | Cleaning a digit string grouped by thousands with commas gives the digits back. |
| Currency.CurrencyRoundTrip | data/task2.py:15 | Cleaning and then parsing the currency text of an amount in cents gives cents / 100 exactly. For example, "$1,234.56" gives 1234.56. |
| SalesPipeline.Concat | data/task2.py:9 | The combined table has the length of the three extracts together. Every row keeps its field values and sits at its extract's offset plus its own position. |
| SalesPipeline.FilterProductCounts | data/task2.py:12 | The filter is sound and complete. A row with product exactly "pink morsel" appears in the result as often as in the input, and any other row never appears. |
| SalesPipeline.FilterProductSound | data/task2.py:12 | Every kept row's product is exactly "pink morsel". |
| SalesPipeline.FilterProductAppend | data/task2.py:12 | The filter works piece by piece, so kept rows keep their relative input order. |
| SalesPipeline.CleanPrices | data/task2.py:15 | Cleaning changes only the price of each row, to its cleaned text. Count, order and the other fields are unchanged. |
| SalesPipeline.ParsePrices | data/task2.py:15 | Parsing the column succeeds if and only if every row's price parses. On success, each row's text is replaced by its value, in order, and the other fields are kept. |
| SalesPipeline.DeriveSales | data/task2.py:18 | Every row gets sales = price * quantity, and its other fields are kept. |
| SalesPipeline.Project | data/task2.py:21 | Each output row keeps exactly date, region and sales, from the row at the same position. |
| SalesPipeline.TransformFailsIff | data/task2.py:15-21 | Steps 4 to 6 fail if and only if some kept row's cleaned price does not parse. |
| SalesPipeline.TransformRows | data/task2.py:15-21 | On success there is one record per kept row, in order, with that row's date and region and sales = parsed cleaned price * quantity. |
| SalesPipeline.KeptRows | data/task2.py:9-12 | The kept rows are the pink-morsel rows of extract 0, then those of extract 1, then those of extract 2, each in row order. |
| SalesPipeline.PipelineFailsIff | data/task2.py:12-15 | The run fails if and only if some pink-morsel row of the three extracts has a price that does not parse. Rows of other products are never parsed. |
| SalesPipeline.PipelineRows | data/task2.py:9-21 | On success, output row k comes from the k-th pink-morsel row of the extracts, in extract order. It has that row's date and region and sales = parsed cleaned price * quantity. There are as many output rows as pink-morsel rows. |
| SalesPipeline.FilterProductInsertOther | data/task2.py:12 | Inserting a row of another product at any position of an extract leaves that extract's kept rows unchanged. |
| SalesPipeline.PipelineIgnoresOtherProducts | data/task2.py:9-15 | Inserting a row of another product, with any price text, at any position of any of the three extracts leaves the result unchanged. |
| Dashboard.Regions | app.py:13 | `unique()` lists no region twice, and lists exactly the regions that occur in the table. |
| Dashboard.RegionsFirstAppearance | app.py:13 | The regions are listed in the order in which they first appear in the table. |
| Dashboard.RowsInCounts | app.py:40 | Selecting a region's rows is sound and complete. A row of that region appears as often as in the table, and any other row never appears. |
| Dashboard.RowsInAppend | app.py:40 | Selection works piece by piece, so selected rows keep table order. |
| Dashboard.RowsInIdempotent | app.py:29-40 | Selecting a region's rows from rows already selected for it changes nothing. The per-panel filter on the single-region table is therefore the single-region filter. |
| Dashboard.RowsInAbsent | app.py:29 | A region absent from the table selects no rows. |
| Dashboard.CreateSubplot | app.py:24-88 | The loop appends one trace, one marker line and one marker label per listed region, then sets the layout. The result equals `Subplot`, whose properties are proved in DashboardProperties. |
| Dashboard.UpdateChart | app.py:166-167 | The selector callback returns exactly the chart for the selected value. |
| Dashboard.BuildPage | app.py:104-147 | There is no page, because building the layout raises and the app does not start, exactly when the chart for "all" cannot be built; with the table's own regions that is an empty table (SubplotFailsIff). Otherwise the initial page has the heading, the five selector options and the value "all", and its chart is the chart for "all". |
| DashboardProperties.SubplotFailsIff | app.py:32-37 | No figure exists if and only if "all" is selected on an empty table (a grid of zero rows). Every other input gives a figure. |
| DashboardProperties.SubplotPanels | app.py:25-50 | "all" gives one panel per table region, in list order; any other value gives exactly one panel, for that value. Panel i is grid row i+1 and is titled "Sales in " + the capitalized region. Its trace is named after the capitalized region and holds exactly the table's rows of that region, dates as x and sales as y, in table order. |
| DashboardProperties.SingleRegionChart | app.py:28-30 | A value other than "all" gives one panel, titled for that value, 300 pixels high, holding only that region's rows. An absent region gives one empty panel, not an error. |
| DashboardProperties.SubplotHeight | app.py:79-81 | For every filter value that gives a figure, the figure is 300 pixels high per panel, with one panel per trace, and carries the title "Pink Morsel Sales Over Time by Region". |
| DashboardProperties.SubplotMarkers | app.py:56-77 | Each figure has as many marker lines and labels as panels, and panel i (from 1) carries exactly marker line i and marker label i of n. |
| DashboardProperties.AxisNamesDistinct | app.py:64 | Different panels anchor their marker lines to different y-axis names. |
| DashboardProperties.MarkerLines | app.py:57-66 | Every panel has a vertical line at 2021-01-15 from y = 0 to y = 1 in the data coordinates of its own axis `y<i>`. No two panels share an axis. |
| DashboardProperties.MarkerLabels | app.py:69-77 | Label i of n sits at 2021-01-15 with the text "Price Increase" and y = 1 - (i-1)/n exactly, in paper coordinates. The first label is at 1, the values strictly decrease, and all of them lie in (0, 1]. |
| DashboardProperties.AllRegionsPartition | app.py:25-46 | For "all" on a non-empty table, the panels partition the table. Regions are distinct, every row's region has a panel, and each panel holds only its region's rows. The panels' points add up to the number of table rows. |
| DashboardProperties.SelectorOptions | app.py:93-99 | The selector offers exactly north, east, south, west and all, in that order, each captioned with its value capitalized. The default "all" is one of them. |
| DashboardProperties.EverySelectionCharts | app.py:166-167 | On a non-empty table, every value the selector can send yields a chart. "all" gives one panel per region and any other value gives one panel. |
| EndToEnd.OutputRegions | data/task2.py:12-21 | The output table lines up with the pink-morsel rows: same count and same region at each position. |
| EndToEnd.KeptRegions | data/task2.py:12 | A region occurs among the kept rows if and only if pink morsels were sold there in some extract. |
| EndToEnd.TargetRowOrigin | data/task2.py:12 | Every kept row is a pink-morsel row of the input. |
| EndToEnd.KeptIndex | data/task2.py:12 | Every pink-morsel row of the input is found among the kept rows. |
| EndToEnd.ChartOfPipelineOutput | app.py:11-46 | Charting a successful run's non-empty table for "all" gives one panel per region where pink morsels were sold, and no other. It plots one point per pink-morsel row of the three extracts. |
| EndToEnd.ThreeExtractExample | data/task2.py:4-21 | A worked example: three two-row extracts containing "gold morsel", "vermilion morsel" with price "n/a", and "Pink Morsel" rows. The output is the three pink-morsel rows in extract order with sales 15, 10 and 1234560. The unparsable price on a dropped row does no harm. |

## Left out

- Reading and writing CSV files (`read_csv`, `to_csv`) is left out. So is
  the completion message. The extracts are inputs and the output table is
  the result.
- `pd.to_datetime` is left out. Dates are passed through as text, and the
  marker date is the constant "2021-01-15".
- Currency.ParsePrice: accepts only an optional sign, digits and at most
  one point with digits on at least one side. It rejects the surrounding
  whitespace, underscores, exponents, `inf`/`nan` and non-ASCII Unicode
  decimal digits that Python's `float()` also accepts. Such prices make the model fail where the script
  would not.
- Floating point is left out. Prices, sales and the labels' heights
  `1 - (i - 1) / n` are exact `real` numbers, so binary rounding of the
  parse, of `price * quantity` and of that division (2/3 rather than
  0.6666666666666667) is not modelled. Quantities are unbounded integers.
- The regular-expression engine is left out. `replace('[\$,]', '',
  regex=True)` is modelled as deleting the two characters.
- Text.Capitalize: covers ASCII letters only. Python's Unicode case
  mapping is not modelled.
- Missing values are left out: NaN regions, prices or quantities. The
  model's rows always have every field.
- The pandas row index is left out. `concat` keeps duplicate index
  labels, but the column assignments reuse the same index, so the values
  are not affected.
- Dash and plotly are left out, except for the structural content of the
  figure. That covers the app object, the layout styling, the CSS, the
  callback registration and `app.run`, as well as colours, fonts, hover
  templates, the template name, the legend flag and margins.
- The figure is a value. `fig.add_trace`, `add_shape`, `add_annotation`
  and `update_layout` change plotly's figure in place, and here they are
  appends to the method's local sequences.
