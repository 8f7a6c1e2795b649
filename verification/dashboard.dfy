/** The dashboard's chart construction (app.py) without the plotting and
    web libraries: `create_subplot` is a function from the loaded table,
    its region list and the selected region to an abstract figure holding
    the structural parts plotly is asked to draw (one line trace, one
    vertical marker line and one marker label per panel, the subplot
    titles and the height). The module-level table and region list are
    passed as parameters. */
module Dashboard {
  import opened Wrappers
  import opened Text
  import opened SalesPipeline

  /** The date of the price increase, marked on every panel. */
  const PRICE_INCREASE_DATE: Date := "2021-01-15"
  /** Figure height per panel, in pixels. */
  const PANEL_HEIGHT: nat := 300
  /** The selector value that shows every region. */
  const ALL_REGIONS: string := "all"
  const CHART_TITLE: string := "Pink Morsel Sales Over Time by Region"
  const MARKER_TEXT: string := "Price Increase"
  const TITLE_PREFIX: string := "Sales in "

  predicate HasRegion(df: seq<SalesRecord>, region: string) {
    exists k :: 0 <= k < |df| && df[k].region == region
  }

  predicate Distinct(rs: seq<string>) {
    forall i, j :: 0 <= i < j < |rs| ==> rs[i] != rs[j]
  }

  lemma {:induction false} HasRegionSnoc(df: seq<SalesRecord>, x: SalesRecord, region: string)
    ensures HasRegion(df + [x], region) <==> HasRegion(df, region) || x.region == region
  {
    var df' := df + [x];
    if HasRegion(df, region) {
      var k :| 0 <= k < |df| && df[k].region == region;
      assert df'[k] == df[k];
    }
    if x.region == region {
      assert df'[|df|] == x;
    }
    if HasRegion(df', region) {
      var k :| 0 <= k < |df'| && df'[k].region == region;
      if k < |df| {
        assert df[k] == df'[k];
      }
    }
  }

  /** `df["region"].unique()`: each region of the table once, in order of
      first appearance (see RegionsFirstAppearance). */
  function Regions(df: seq<SalesRecord>): (rs: seq<string>)
    ensures Distinct(rs)
    ensures forall r :: r in rs <==> HasRegion(df, r)
  {
    if df == [] then []
    else
      var front := df[..|df| - 1];
      var rs := Regions(front);
      var r := df[|df| - 1].region;
      assert df == front + [df[|df| - 1]];
      assert forall r' :: HasRegion(df, r') <==> HasRegion(front, r') || r == r' by {
        forall r' {
          HasRegionSnoc(front, df[|df| - 1], r');
        }
      }
      if r in rs then rs else rs + [r]
  }

  /** Index of the first row of the given region, or |df| when there is none. */
  function FirstIndex(df: seq<SalesRecord>, region: string): (k: nat)
    ensures k <= |df|
    ensures k < |df| ==> df[k].region == region
    ensures forall m :: 0 <= m < k ==> df[m].region != region
  {
    if df == [] || df[0].region == region then 0 else 1 + FirstIndex(df[1..], region)
  }

  lemma {:induction false} FirstIndexSnoc(df: seq<SalesRecord>, x: SalesRecord, region: string)
    ensures HasRegion(df, region) ==> FirstIndex(df + [x], region) == FirstIndex(df, region) < |df|
    ensures !HasRegion(df, region) && x.region == region ==> FirstIndex(df + [x], region) == |df|
  {
    var df' := df + [x];
    var a := FirstIndex(df', region);
    var b := FirstIndex(df, region);
    if HasRegion(df, region) {
      var k :| 0 <= k < |df| && df[k].region == region;
      assert b <= k;
      assert df'[b] == df[b];
    } else if x.region == region {
      assert df'[|df|] == x;
    }
  }

  /** The region list follows the order in which regions first appear in the table. */
  lemma {:induction false} RegionsFirstAppearance(df: seq<SalesRecord>)
    ensures forall i, j :: 0 <= i < j < |Regions(df)| ==>
      FirstIndex(df, Regions(df)[i]) < FirstIndex(df, Regions(df)[j]) < |df|
  {
    if df != [] {
      var front, x := df[..|df| - 1], df[|df| - 1];
      assert df == front + [x];
      RegionsFirstAppearance(front);
      var rs := Regions(front);
      var rs' := Regions(df);
      forall i, j | 0 <= i < j < |rs'|
        ensures FirstIndex(df, rs'[i]) < FirstIndex(df, rs'[j]) < |df|
      {
        FirstIndexSnoc(front, x, rs'[i]);
        FirstIndexSnoc(front, x, rs'[j]);
        assert rs'[i] in rs;
        if x.region in rs || j < |rs| {
          assert rs'[j] in rs;
        }
      }
    }
  }

  /** The rows of one region, `df[df["region"] == region]`. */
  function RowsIn(df: seq<SalesRecord>, region: string): seq<SalesRecord> {
    if df == [] then []
    else (if df[0].region == region then [df[0]] else []) + RowsIn(df[1..], region)
  }

  /** The region filter is sound and complete: a row occurs in the result as
      often as in the table when it is of the region, and never otherwise. */
  lemma {:induction false} RowsInCounts(df: seq<SalesRecord>, region: string, row: SalesRecord)
    ensures multiset(RowsIn(df, region))[row] == if row.region == region then multiset(df)[row] else 0
  {
    if df != [] {
      assert df == [df[0]] + df[1..];
      RowsInCounts(df[1..], region, row);
    }
  }

  /** The filter works piece by piece, so selected rows keep table order. */
  lemma {:induction false} RowsInAppend(a: seq<SalesRecord>, b: seq<SalesRecord>, region: string)
    ensures RowsIn(a + b, region) == RowsIn(a, region) + RowsIn(b, region)
  {
    if a == [] {
      assert a + b == b;
    } else {
      var head := if a[0].region == region then [a[0]] else [];
      assert (a + b)[0] == a[0];
      assert (a + b)[1..] == a[1..] + b;
      RowsInAppend(a[1..], b, region);
      calc {
        RowsIn(a + b, region);
        head + RowsIn(a[1..] + b, region);
        head + (RowsIn(a[1..], region) + RowsIn(b, region));
        (head + RowsIn(a[1..], region)) + RowsIn(b, region);
        RowsIn(a, region) + RowsIn(b, region);
      }
    }
  }

  /** Filtering twice by the same region is filtering once. */
  lemma {:induction false} RowsInIdempotent(df: seq<SalesRecord>, region: string)
    ensures RowsIn(RowsIn(df, region), region) == RowsIn(df, region)
  {
    if df != [] {
      RowsInIdempotent(df[1..], region);
      if df[0].region == region {
        var sel := RowsIn(df, region);
        assert sel == [df[0]] + RowsIn(df[1..], region);
        assert sel != [] && sel[0] == df[0];
        assert sel[1..] == RowsIn(df[1..], region);
      } else {
        assert RowsIn(df, region) == [] + RowsIn(df[1..], region) == RowsIn(df[1..], region);
      }
    }
  }

  /** A region absent from the table selects no rows. */
  lemma {:induction false} RowsInAbsent(df: seq<SalesRecord>, region: string)
    requires !HasRegion(df, region)
    ensures RowsIn(df, region) == []
  {
    if df != [] {
      assert df[0].region != region;
      RowsInAbsent(df[1..], region);
    }
  }

  function Dates(rows: seq<SalesRecord>): (xs: seq<Date>)
    ensures |xs| == |rows| && forall k :: 0 <= k < |rows| ==> xs[k] == rows[k].date
  {
    seq(|rows|, k requires 0 <= k < |rows| => rows[k].date)
  }

  function SalesOf(rows: seq<SalesRecord>): (ys: seq<real>)
    ensures |ys| == |rows| && forall k :: 0 <= k < |rows| ==> ys[k] == rows[k].sales
  {
    seq(|rows|, k requires 0 <= k < |rows| => rows[k].sales)
  }

  /** A line trace drawn in subplot row `row`: x the dates, y the sales. */
  datatype Trace = Trace(row: nat, name: string, x: seq<Date>, y: seq<real>)

  /** A vertical line from (x0, y0) to (x1, y1), x in data coordinates of
      axis `xref`, y in the coordinates of axis `yref`. */
  datatype Shape = Shape(x0: Date, x1: Date, y0: int, y1: int, xref: string, yref: string)

  /** A text label at (x, y); y in `yref` coordinates ("paper": 0 is the
      bottom of the plotting area inside the margins, 1 its top). */
  datatype Annotation = Annotation(x: Date, y: real, xref: string, yref: string, text: string)

  /** The structural content of the figure: `rows` stacked subplots sharing
      the x axis, their titles, the traces, shapes and annotations in the
      order they were added, the height and the figure title. */
  datatype Figure = Figure(
    rows: nat,
    subplotTitles: seq<string>,
    traces: seq<Trace>,
    shapes: seq<Shape>,
    annotations: seq<Annotation>,
    height: int,
    title: string)

  /** The regions to draw: every region for "all", else just the one selected. */
  function RegionList(regions: seq<string>, filter: string): seq<string> {
    if filter == ALL_REGIONS then regions else [filter]
  }

  /** The rows considered: the whole table for "all", else the selected region's. */
  function FilteredRows(df: seq<SalesRecord>, filter: string): seq<SalesRecord> {
    if filter == ALL_REGIONS then df else RowsIn(df, filter)
  }

  function Title(region: string): string {
    TITLE_PREFIX + Capitalize(region)
  }

  function Titles(list: seq<string>): seq<string> {
    seq(|list|, i requires 0 <= i < |list| => Title(list[i]))
  }

  /** The line of panel i (numbered from 1): the rows of its region. */
  function PanelTrace(rows: seq<SalesRecord>, region: string, i: nat): Trace {
    var regionRows := RowsIn(rows, region);
    Trace(i, Capitalize(region), Dates(regionRows), SalesOf(regionRows))
  }

  /** The price-increase line of panel i, from y = 0 to y = 1 in the data
      coordinates of axis y<i>. */
  function MarkerShape(i: nat): Shape {
    Shape(PRICE_INCREASE_DATE, PRICE_INCREASE_DATE, 0, 1, "x", "y" + NatToString(i))
  }

  /** The price-increase label of panel i of n, at the top of that panel. */
  function MarkerAnnotation(i: nat, n: nat): Annotation
    requires 1 <= i <= n
  {
    Annotation(PRICE_INCREASE_DATE, 1.0 - (i - 1) as real / n as real, "x", "paper", MARKER_TEXT)
  }

  /** The panels' lines, in region-list order. */
  function PanelTraces(rows: seq<SalesRecord>, list: seq<string>): seq<Trace> {
    seq(|list|, i requires 0 <= i < |list| => PanelTrace(rows, list[i], i + 1))
  }

  /** The marker lines of panels 1 to n. */
  function MarkerShapes(n: nat): seq<Shape> {
    seq(n, i requires 0 <= i < n => MarkerShape(i + 1))
  }

  /** The marker labels of panels 1 to n. */
  function MarkerAnnotations(n: nat): seq<Annotation> {
    seq(n, i requires 0 <= i < n => MarkerAnnotation(i + 1, n))
  }

  /** What `create_subplot` builds. None when there are no regions to draw:
      `make_subplots` refuses a grid of zero rows. */
  function Subplot(df: seq<SalesRecord>, regions: seq<string>, filter: string): Option<Figure> {
    var list := RegionList(regions, filter);
    var rows := FilteredRows(df, filter);
    var n := |list|;
    if n == 0 then None
    else Some(Figure(
      n,
      Titles(list),
      PanelTraces(rows, list),
      MarkerShapes(n),
      MarkerAnnotations(n),
      PANEL_HEIGHT * n,
      CHART_TITLE))
  }

  /** `create_subplot`: picks the region list, then adds one trace, one
      marker line and one marker label per region, then sets the layout. */
  method CreateSubplot(df: seq<SalesRecord>, regions: seq<string>, filter: string) returns (fig: Option<Figure>)
    ensures fig == Subplot(df, regions, filter)
  {
    var rows, list;
    if filter == ALL_REGIONS {
      rows, list := df, regions;
    } else {
      rows, list := RowsIn(df, filter), [filter];
    }
    assert list == RegionList(regions, filter) && rows == FilteredRows(df, filter);
    var n := |list|;
    if n == 0 {
      return None;
    }
    var titles := Titles(list);
    var traces: seq<Trace> := [];
    var shapes: seq<Shape> := [];
    var annotations: seq<Annotation> := [];
    for i := 1 to n + 1
      invariant |traces| == |shapes| == |annotations| == i - 1
      invariant forall k :: 0 <= k < i - 1 ==> traces[k] == PanelTrace(rows, list[k], k + 1)
      invariant forall k :: 0 <= k < i - 1 ==> shapes[k] == MarkerShape(k + 1)
      invariant forall k :: 0 <= k < i - 1 ==> annotations[k] == MarkerAnnotation(k + 1, n)
    {
      var region := list[i - 1];
      var regionRows := RowsIn(rows, region);
      traces := traces + [Trace(i, Capitalize(region), Dates(regionRows), SalesOf(regionRows))];
      shapes := shapes + [Shape(PRICE_INCREASE_DATE, PRICE_INCREASE_DATE, 0, 1, "x", "y" + NatToString(i))];
      annotations := annotations + [Annotation(PRICE_INCREASE_DATE, 1.0 - (i - 1) as real / n as real, "x", "paper", MARKER_TEXT)];
      assert traces[i - 1] == PanelTrace(rows, list[i - 1], i);
      assert shapes[i - 1] == MarkerShape(i);
      assert annotations[i - 1] == MarkerAnnotation(i, n);
    }
    fig := Some(Figure(n, titles, traces, shapes, annotations, PANEL_HEIGHT * n, CHART_TITLE));
    SubplotAsBuilt(df, regions, filter, traces, shapes, annotations);
  }

  /** Panel by panel contents determine the figure. */
  lemma {:induction false} SubplotAsBuilt(df: seq<SalesRecord>, regions: seq<string>, filter: string,
                                          traces: seq<Trace>, shapes: seq<Shape>, annotations: seq<Annotation>)
    requires var list := RegionList(regions, filter);
      && |list| > 0
      && |traces| == |shapes| == |annotations| == |list|
      && (forall k :: 0 <= k < |list| ==> traces[k] == PanelTrace(FilteredRows(df, filter), list[k], k + 1))
      && (forall k :: 0 <= k < |list| ==> shapes[k] == MarkerShape(k + 1))
      && (forall k :: 0 <= k < |list| ==> annotations[k] == MarkerAnnotation(k + 1, |list|))
    ensures var list := RegionList(regions, filter);
      Subplot(df, regions, filter)
        == Some(Figure(|list|, Titles(list), traces, shapes, annotations, PANEL_HEIGHT * |list|, CHART_TITLE))
  {
    var list := RegionList(regions, filter);
    TracesAsBuilt(FilteredRows(df, filter), list, traces);
    ShapesAsBuilt(|list|, shapes);
    AnnotationsAsBuilt(|list|, annotations);
  }

  lemma {:induction false} TracesAsBuilt(rows: seq<SalesRecord>, list: seq<string>, traces: seq<Trace>)
    requires |traces| == |list|
    requires forall k :: 0 <= k < |list| ==> traces[k] == PanelTrace(rows, list[k], k + 1)
    ensures traces == PanelTraces(rows, list)
  {
  }

  lemma {:induction false} ShapesAsBuilt(n: nat, shapes: seq<Shape>)
    requires |shapes| == n
    requires forall k :: 0 <= k < n ==> shapes[k] == MarkerShape(k + 1)
    ensures shapes == MarkerShapes(n)
  {
  }

  lemma {:induction false} AnnotationsAsBuilt(n: nat, annotations: seq<Annotation>)
    requires |annotations| == n
    requires forall k :: 0 <= k < n ==> annotations[k] == MarkerAnnotation(k + 1, n)
    ensures annotations == MarkerAnnotations(n)
  {
  }

  /** `update_chart`: the callback run when the selector changes; it
      rebuilds the chart for the new selection and keeps no state. */
  method UpdateChart(df: seq<SalesRecord>, regions: seq<string>, selected: string) returns (fig: Option<Figure>)
    ensures fig == Subplot(df, regions, selected)
  {
    fig := CreateSubplot(df, regions, selected);
  }

  /** One choice of the region selector: the caption shown and the value sent. */
  datatype RadioOption = RadioOption(caption: string, value: string)

  const REGION_OPTIONS: seq<RadioOption> := [
    RadioOption("North", "north"),
    RadioOption("East", "east"),
    RadioOption("South", "south"),
    RadioOption("West", "west"),
    RadioOption("All", ALL_REGIONS)
  ]

  /** The selector's initial value. */
  const DEFAULT_SELECTION: string := ALL_REGIONS

  const PAGE_HEADING: string := "Pink Morsel Sales Dashboard"

  /** The page: a heading, the region selector with its options and current
      value, and the chart. */
  datatype Page = Page(heading: string, options: seq<RadioOption>, selected: string, chart: Figure)

  /** The initial page: the selector shows its default and the chart is
      built for that selection. Building the layout raises, so there is no
      page and the app does not start, exactly when that chart cannot be
      built. */
  method BuildPage(df: seq<SalesRecord>, regions: seq<string>) returns (page: Option<Page>)
    ensures page.None? <==> Subplot(df, regions, DEFAULT_SELECTION).None?
    ensures page.Some? ==>
      && page.value.heading == PAGE_HEADING
      && page.value.options == REGION_OPTIONS && page.value.selected == DEFAULT_SELECTION
      && Subplot(df, regions, page.value.selected) == Some(page.value.chart)
  {
    var chart := CreateSubplot(df, regions, DEFAULT_SELECTION);
    if chart.None? {
      page := None;
    } else {
      page := Some(Page(PAGE_HEADING, REGION_OPTIONS, DEFAULT_SELECTION, chart.value));
    }
  }

  function OptionValues(options: seq<RadioOption>): seq<string> {
    seq(|options|, i requires 0 <= i < |options| => options[i].value)
  }
}
