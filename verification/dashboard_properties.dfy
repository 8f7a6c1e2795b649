/** What the chart construction promises, proved about the Subplot
    specification that CreateSubplot and UpdateChart meet. */
module DashboardProperties {
  import opened Wrappers
  import opened Text
  import opened SalesPipeline
  import opened Dashboard

  /** The chart cannot be built only when "all" is selected and the table
      is empty: the grid would have no rows. A region that does not occur
      still gets its (empty) panel. */
  lemma {:induction false} SubplotFailsIff(df: seq<SalesRecord>, filter: string)
    ensures Subplot(df, Regions(df), filter).None? <==> filter == ALL_REGIONS && df == []
  {
    if filter == ALL_REGIONS && df != [] {
      assert HasRegion(df, df[0].region);
      assert df[0].region in Regions(df);
    }
  }

  /** One panel per listed region, in list order: "all" lists the table's
      regions (Regions), any other value lists just itself. Panel i is row
      i + 1 of the grid, titled "Sales in <Region>", and its trace holds
      exactly the table's rows of that region, dates as x and sales as y,
      in table order. */
  lemma {:induction false} SubplotPanels(df: seq<SalesRecord>, filter: string)
    ensures var list := if filter == ALL_REGIONS then Regions(df) else [filter];
      Subplot(df, Regions(df), filter).Some? ==>
        var f := Subplot(df, Regions(df), filter).value;
        && f.rows == |list| == |f.subplotTitles| == |f.traces| == |f.shapes| == |f.annotations|
        && forall i :: 0 <= i < |list| ==>
          && f.subplotTitles[i] == TITLE_PREFIX + Capitalize(list[i])
          && f.traces[i].row == i + 1
          && f.traces[i].name == Capitalize(list[i])
          && f.traces[i].x == Dates(RowsIn(df, list[i]))
          && f.traces[i].y == SalesOf(RowsIn(df, list[i]))
  {
    if filter != ALL_REGIONS {
      RowsInIdempotent(df, filter);
    }
  }

  /** The height is the per-panel height times the number of panels, and
      the figure title is fixed, whatever the selection. */
  lemma {:induction false} SubplotHeight(df: seq<SalesRecord>, filter: string)
    ensures Subplot(df, Regions(df), filter).Some? ==>
      var f := Subplot(df, Regions(df), filter).value;
      f.height == PANEL_HEIGHT * |f.traces| && f.title == CHART_TITLE
  {
  }

  /** Any value other than "all" gives exactly one panel, for that value,
      holding only rows of that region; an absent region gives one empty panel. */
  lemma {:induction false} SingleRegionChart(df: seq<SalesRecord>, region: string)
    requires region != ALL_REGIONS
    ensures Subplot(df, Regions(df), region).Some?
    ensures var f := Subplot(df, Regions(df), region).value;
      && |f.traces| == 1 && f.subplotTitles == [TITLE_PREFIX + Capitalize(region)]
      && f.height == PANEL_HEIGHT
      && (forall row :: row in RowsIn(df, region) ==> row.region == region)
      && f.traces[0].x == Dates(RowsIn(df, region))
      && (!HasRegion(df, region) ==> f.traces[0].x == [] && f.traces[0].y == [])
  {
    SubplotPanels(df, region);
    forall row | row in RowsIn(df, region)
      ensures row.region == region
    {
      RowsInCounts(df, region, row);
    }
    if !HasRegion(df, region) {
      RowsInAbsent(df, region);
    }
  }

  lemma {:induction false} QuotientBelowOne(i: nat, n: nat)
    requires i < n
    ensures 0.0 <= i as real / n as real < 1.0
  {
    assert i as real < n as real;
  }

  lemma {:induction false} QuotientMonotone(i: nat, j: nat, n: nat)
    requires i < j && n > 0
    ensures i as real / n as real < j as real / n as real
  {
    assert i as real < j as real;
  }

  /** Distinct panels name distinct y axes. */
  lemma {:induction false} AxisNamesDistinct(i: nat, j: nat)
    requires i != j
    ensures "y" + NatToString(i) != "y" + NatToString(j)
  {
    var a, b := NatToString(i), NatToString(j);
    assert ("y" + a)[1..] == a && ("y" + b)[1..] == b;
    assert DigitsValue(a) != DigitsValue(b);
  }

  /** Panel i of a figure carries the i-th marker line and label. */
  lemma {:induction false} SubplotMarkers(df: seq<SalesRecord>, regions: seq<string>, filter: string)
    requires Subplot(df, regions, filter).Some?
    ensures var f := Subplot(df, regions, filter).value;
      && |f.shapes| == |f.annotations| == |f.traces| == f.rows > 0
      && (forall i :: 0 <= i < f.rows ==> f.shapes[i] == MarkerShape(i + 1))
      && (forall i :: 0 <= i < f.rows ==> f.annotations[i] == MarkerAnnotation(i + 1, f.rows))
  {
  }

  /** The price-increase line: on every panel it stands at the same fixed
      date and runs from y = 0 to y = 1 in the data coordinates of that
      panel's own axis "y<i>" (sales 0 to 1, not the panel's height); no
      two panels share an axis. */
  lemma {:induction false} MarkerLines(df: seq<SalesRecord>, regions: seq<string>, filter: string)
    ensures Subplot(df, regions, filter).Some? ==>
      var f := Subplot(df, regions, filter).value;
      var n := |f.shapes|;
      && n == |f.traces| == f.rows > 0
      && (forall i :: 0 <= i < n ==>
            && f.shapes[i].x0 == f.shapes[i].x1 == PRICE_INCREASE_DATE
            && f.shapes[i].y0 == 0 && f.shapes[i].y1 == 1
            && f.shapes[i].yref == "y" + NatToString(i + 1))
      && (forall i, j :: 0 <= i < j < n ==> f.shapes[i].yref != f.shapes[j].yref)
  {
    if Subplot(df, regions, filter).Some? {
      SubplotMarkers(df, regions, filter);
      var f := Subplot(df, regions, filter).value;
      var n := |f.shapes|;
      forall i, j | 0 <= i < j < n
        ensures f.shapes[i].yref != f.shapes[j].yref
      {
        AxisNamesDistinct(i + 1, j + 1);
      }
    }
  }

  /** The price-increase label of panel i (from 1) of n sits at the fixed
      date and at y = 1 - (i - 1) / n in figure coordinates: 1 for the first
      panel, strictly lower for each following one, never down to 0. */
  lemma {:induction false} MarkerLabels(df: seq<SalesRecord>, regions: seq<string>, filter: string)
    ensures Subplot(df, regions, filter).Some? ==>
      var f := Subplot(df, regions, filter).value;
      var n := |f.annotations|;
      && n == |f.traces| == f.rows > 0
      && f.annotations[0].y == 1.0
      && (forall i :: 0 <= i < n ==>
            && f.annotations[i].x == PRICE_INCREASE_DATE
            && f.annotations[i].text == MARKER_TEXT
            && f.annotations[i].yref == "paper"
            && f.annotations[i].y == 1.0 - i as real / n as real
            && 0.0 < f.annotations[i].y <= 1.0)
      && (forall i, j :: 0 <= i < j < n ==> f.annotations[j].y < f.annotations[i].y)
  {
    if Subplot(df, regions, filter).Some? {
      SubplotMarkers(df, regions, filter);
      var f := Subplot(df, regions, filter).value;
      var n := |f.annotations|;
      forall i | 0 <= i < n
        ensures f.annotations[i].y == 1.0 - i as real / n as real
        ensures f.annotations[i].x == PRICE_INCREASE_DATE && f.annotations[i].text == MARKER_TEXT
        ensures f.annotations[i].yref == "paper"
      {
        assert (i + 1 - 1) as real == i as real;
      }
      forall i | 0 <= i < n
        ensures 0.0 < f.annotations[i].y <= 1.0
      {
        QuotientBelowOne(i, n);
      }
      forall i, j | 0 <= i < j < n
        ensures f.annotations[j].y < f.annotations[i].y
      {
        QuotientMonotone(i, j, n);
      }
    }
  }

  /** Number of plotted points over all traces. */
  function PointCount(traces: seq<Trace>): nat {
    if traces == [] then 0 else |traces[0].x| + PointCount(traces[1..])
  }

  /** Number of table rows in the given regions' selections, summed. */
  function RowsInRegions(df: seq<SalesRecord>, rs: seq<string>): nat {
    if rs == [] then 0 else |RowsIn(df, rs[0])| + RowsInRegions(df, rs[1..])
  }

  function Occurrences(rs: seq<string>, r: string): nat {
    if rs == [] then 0 else (if rs[0] == r then 1 else 0) + Occurrences(rs[1..], r)
  }

  lemma {:induction false} OccurrencesDistinct(rs: seq<string>, r: string)
    requires Distinct(rs) && r in rs
    ensures Occurrences(rs, r) == 1
  {
    if rs[0] == r {
      OccurrencesAbsent(rs[1..], r);
    } else {
      OccurrencesDistinct(rs[1..], r);
    }
  }

  lemma {:induction false} OccurrencesAbsent(rs: seq<string>, r: string)
    requires r !in rs
    ensures Occurrences(rs, r) == 0
  {
    if rs != [] {
      OccurrencesAbsent(rs[1..], r);
    }
  }

  /** Adding a row adds one to the selection of each listed copy of its region. */
  lemma {:induction false} RowsInRegionsSnoc(df: seq<SalesRecord>, x: SalesRecord, rs: seq<string>)
    ensures RowsInRegions(df + [x], rs) == RowsInRegions(df, rs) + Occurrences(rs, x.region)
  {
    if rs != [] {
      RowsInAppend(df, [x], rs[0]);
      assert RowsIn([x], rs[0]) == (if x.region == rs[0] then [x] else []) + RowsIn([], rs[0]);
      RowsInRegionsSnoc(df, x, rs[1..]);
    }
  }

  /** Distinct regions that cover every row select each row exactly once. */
  lemma {:induction false} RowsInRegionsCover(df: seq<SalesRecord>, rs: seq<string>)
    requires Distinct(rs)
    requires forall k :: 0 <= k < |df| ==> df[k].region in rs
    ensures RowsInRegions(df, rs) == |df|
  {
    if df == [] {
      RowsInRegionsEmpty(rs);
    } else {
      var front, x := df[..|df| - 1], df[|df| - 1];
      assert df == front + [x];
      RowsInRegionsCover(front, rs);
      RowsInRegionsSnoc(front, x, rs);
      OccurrencesDistinct(rs, x.region);
    }
  }

  lemma {:induction false} RowsInRegionsEmpty(rs: seq<string>)
    ensures RowsInRegions([], rs) == 0
  {
    if rs != [] {
      RowsInRegionsEmpty(rs[1..]);
    }
  }

  lemma {:induction false} PointCountPanels(df: seq<SalesRecord>, rs: seq<string>, traces: seq<Trace>)
    requires |traces| == |rs|
    requires forall i :: 0 <= i < |rs| ==> traces[i].x == Dates(RowsIn(df, rs[i]))
    ensures PointCount(traces) == RowsInRegions(df, rs)
  {
    if rs != [] {
      PointCountPanels(df, rs[1..], traces[1..]);
    }
  }

  /** With "all" selected the panels split the table: each panel holds only
      rows of its own region, no two panels share a region, every row's
      region has a panel, and the panels together plot every row exactly
      once (the point counts add up to the table size). */
  lemma {:induction false} AllRegionsPartition(df: seq<SalesRecord>)
    requires df != []
    ensures Subplot(df, Regions(df), ALL_REGIONS).Some?
    ensures var f := Subplot(df, Regions(df), ALL_REGIONS).value;
      var rs := Regions(df);
      && Distinct(rs)
      && (forall k :: 0 <= k < |df| ==> df[k].region in rs)
      && (forall i, row :: 0 <= i < |rs| && row in RowsIn(df, rs[i]) ==> row.region == rs[i])
      && PointCount(f.traces) == |df|
  {
    SubplotFailsIff(df, ALL_REGIONS);
    SubplotPanels(df, ALL_REGIONS);
    var rs := Regions(df);
    var f := Subplot(df, rs, ALL_REGIONS).value;
    forall k | 0 <= k < |df|
      ensures df[k].region in rs
    {
      assert HasRegion(df, df[k].region);
    }
    forall i, row | 0 <= i < |rs| && row in RowsIn(df, rs[i])
      ensures row.region == rs[i]
    {
      RowsInCounts(df, rs[i], row);
    }
    PointCountPanels(df, rs, f.traces);
    RowsInRegionsCover(df, rs);
  }

  /** The selector offers exactly north, east, south, west and all, each
      labelled with its value capitalized, and starts on all. */
  lemma {:induction false} SelectorOptions()
    ensures OptionValues(REGION_OPTIONS) == ["north", "east", "south", "west", "all"]
    ensures forall o :: o in REGION_OPTIONS ==> o.caption == Capitalize(o.value)
    ensures DEFAULT_SELECTION in OptionValues(REGION_OPTIONS)
  {
    var vals := OptionValues(REGION_OPTIONS);
    assert vals[4] == DEFAULT_SELECTION;
    forall i | 0 <= i < |REGION_OPTIONS|
      ensures REGION_OPTIONS[i].caption == Capitalize(REGION_OPTIONS[i].value)
    {
      CapitalizedFormUnique(REGION_OPTIONS[i].value, REGION_OPTIONS[i].caption);
    }
  }

  /** For a non-empty table every selector choice yields a chart: one panel
      per region for all, one panel for each single region. */
  lemma {:induction false} EverySelectionCharts(df: seq<SalesRecord>, choice: string)
    requires df != [] && choice in OptionValues(REGION_OPTIONS)
    ensures Subplot(df, Regions(df), choice).Some?
    ensures |Subplot(df, Regions(df), choice).value.traces|
         == if choice == ALL_REGIONS then |Regions(df)| else 1
  {
    SubplotFailsIff(df, choice);
  }
}
