/** The two components joined through the output table: the dashboard
    draws what the pipeline wrote. */
module EndToEnd {
  import opened Wrappers
  import opened Text
  import opened Currency
  import opened SalesPipeline
  import opened Dashboard
  import opened DashboardProperties

  /** The output rows line up with the target-product rows: same count,
      same regions, position by position. */
  lemma {:induction false} OutputRegions(e0: seq<RawRow>, e1: seq<RawRow>, e2: seq<RawRow>, out: seq<SalesRecord>)
    requires Pipeline(e0, e1, e2) == Some(out)
    ensures var pink := FilterProduct(Concat(e0, e1, e2));
      |out| == |pink| && forall k :: 0 <= k < |out| ==> out[k].region == pink[k].region
  {
    PipelineRows(e0, e1, e2);
    KeptRows(e0, e1, e2);
  }

  /** Some row of the list is of the given region. */
  predicate SourceHasRegion(source: seq<RawRow>, region: string) {
    exists k :: 0 <= k < |source| && source[k].region == region
  }

  /** Charting a table whose rows line up region by region with some
      source rows: one panel per region of those source rows, and one point
      per source row. */
  lemma {:induction false} ChartOfAlignedRows(source: seq<RawRow>, out: seq<SalesRecord>)
    requires |out| == |source| > 0
    requires forall k :: 0 <= k < |out| ==> out[k].region == source[k].region
    ensures Subplot(out, Regions(out), ALL_REGIONS).Some?
    ensures forall r :: r in Regions(out) <==> SourceHasRegion(source, r)
    ensures PointCount(Subplot(out, Regions(out), ALL_REGIONS).value.traces) == |source|
  {
    AllRegionsPartition(out);
  }

  /** Some target-product row of the rows is of the given region. */
  predicate SoldIn(rows: seq<RawRow>, region: string) {
    exists row :: row in rows && IsTarget(row) && row.region == region
  }

  /** The regions of the kept rows are the regions where the target
      product was sold. */
  lemma {:induction false} KeptRegions(all: seq<RawRow>, region: string)
    ensures SourceHasRegion(FilterProduct(all), region) <==> SoldIn(all, region)
  {
    var pink := FilterProduct(all);
    if SourceHasRegion(pink, region) {
      var k :| 0 <= k < |pink| && pink[k].region == region;
      TargetRowOrigin(all, k);
    }
    if SoldIn(all, region) {
      var row :| row in all && IsTarget(row) && row.region == region;
      var k := KeptIndex(all, row);
    }
  }

  /** Region completeness: charting a successful run's table for "all"
      gives one panel per region in which the target product was sold in
      any extract (and no other), and plots one point per target-product row. */
  lemma {:induction false} ChartOfPipelineOutput(e0: seq<RawRow>, e1: seq<RawRow>, e2: seq<RawRow>, out: seq<SalesRecord>)
    requires Pipeline(e0, e1, e2) == Some(out) && out != []
    ensures Subplot(out, Regions(out), ALL_REGIONS).Some?
    ensures forall r :: r in Regions(out) <==> SoldIn(e0 + e1 + e2, r)
    ensures PointCount(Subplot(out, Regions(out), ALL_REGIONS).value.traces)
         == |FilterProduct(e0)| + |FilterProduct(e1)| + |FilterProduct(e2)|
  {
    var all := Concat(e0, e1, e2);
    var pink := FilterProduct(all);
    OutputRegions(e0, e1, e2, out);
    KeptRows(e0, e1, e2);
    ChartOfAlignedRows(pink, out);
    forall r
      ensures r in Regions(out) <==> SoldIn(all, r)
    {
      KeptRegions(all, r);
    }
  }

  /** A kept row is a target-product row of the input. */
  lemma {:induction false} TargetRowOrigin(all: seq<RawRow>, k: nat)
    requires k < |FilterProduct(all)|
    ensures FilterProduct(all)[k] in all && IsTarget(FilterProduct(all)[k])
  {
    var pink := FilterProduct(all);
    FilterProductCounts(all, pink[k]);
    assert pink[k] in multiset(pink);
  }

  /** Where a target-product row of the input ends up among the kept rows. */
  lemma {:induction false} KeptIndex(all: seq<RawRow>, row: RawRow) returns (k: nat)
    requires row in all && IsTarget(row)
    ensures k < |FilterProduct(all)| && FilterProduct(all)[k] == row
  {
    var pink := FilterProduct(all);
    FilterProductCounts(all, row);
    assert row in multiset(pink);
    k :| 0 <= k < |pink| && pink[k] == row;
  }

  /** The filter on a two-row extract. */
  lemma {:induction false} FilterPair(a: RawRow, b: RawRow)
    ensures FilterProduct([a, b]) == (if IsTarget(a) then [a] else []) + (if IsTarget(b) then [b] else [])
  {
    assert [a, b][1..] == [b];
    assert [b][1..] == [];
    assert FilterProduct([b]) == (if IsTarget(b) then [b] else []) + FilterProduct([]);
  }

  /** The three prices of the example, as the cleaning and parsing
      steps read them. */
  lemma {:induction false} PriceThree()
    ensures ParsePrice(StripCurrency("$3.00")) == Some(3.0)
  {
    assert "$3.00" == FormatCurrency(300);
    CurrencyRoundTrip(300);
  }

  lemma {:induction false} PriceTwoFifty()
    ensures ParsePrice(StripCurrency("$2.50")) == Some(2.5)
  {
    assert "$2.50" == FormatCurrency(250);
    CurrencyRoundTrip(250);
  }

  lemma {:induction false} PriceThousands()
    ensures ParsePrice(StripCurrency("$1,234.56")) == Some(1234.56)
  {
    FormatThousands();
    CurrencyRoundTrip(123456);
  }

  /** 123456 cents are written "$1,234.56". */
  lemma {:induction false} FormatThousands()
    ensures FormatCurrency(123456) == "$1,234.56"
  {
    SpellThousands();
    GroupThousand();
    assert CentDigits(56) == "56";
    assert 123456 / 100 == 1234 && 123456 % 100 == 56;
  }

  lemma {:induction false} GroupThousand()
    ensures GroupThousands("1234") == "1,234"
  {
    assert "1234"[..1] == "1" && "1234"[1..] == "234";
  }

  lemma {:induction false} SpellThousands()
    ensures NatToString(1234) == "1234"
  {
    assert NatToString(1) == "1";
    assert NatToString(12) == "12";
    assert NatToString(123) == "123";
  }

  /** The rows of the example that carry those prices. */
  lemma {:induction false} ExampleRowPrices(a: RawRow, b: RawRow, c: RawRow)
    requires a.price == "$3.00" && b.price == "$2.50" && c.price == "$1,234.56"
    ensures RowPrice(a) == Some(3.0) && RowPrice(b) == Some(2.5) && RowPrice(c) == Some(1234.56)
  {
    PriceThree();
    PriceTwoFifty();
    PriceThousands();
  }

  /** The example: three two-row extracts, each holding one
      "pink morsel" row and one row of another product (one with a price
      that is not a number at all, one spelled "Pink Morsel"). The output
      has the three pink-morsel rows, in extract order, e.g. 5 at $3.00
      gives 15. */
  lemma {:induction false} ThreeExtractExample(e0: seq<RawRow>, e1: seq<RawRow>, e2: seq<RawRow>)
    requires e0 == [RawRow("2021-01-01", "north", "pink morsel", 5, "$3.00"),
                    RawRow("2021-01-01", "north", "gold morsel", 2, "$9.99")]
    requires e1 == [RawRow("2021-01-02", "south", "vermilion morsel", 1, "n/a"),
                    RawRow("2021-01-02", "south", "pink morsel", 4, "$2.50")]
    requires e2 == [RawRow("2021-01-03", "east", "pink morsel", 1000, "$1,234.56"),
                    RawRow("2021-01-03", "west", "Pink Morsel", 3, "$3.00")]
    ensures Pipeline(e0, e1, e2) == Some([
      SalesRecord("2021-01-01", "north", 15.0),
      SalesRecord("2021-01-02", "south", 10.0),
      SalesRecord("2021-01-03", "east", 1234560.0)])
  {
    var pink := [e0[0], e1[1], e2[0]];
    KeptRows(e0, e1, e2);
    FilterPair(e0[0], e0[1]);
    FilterPair(e1[0], e1[1]);
    FilterPair(e2[0], e2[1]);
    assert FilterProduct(Concat(e0, e1, e2)) == pink;
    ExampleRowPrices(pink[0], pink[1], pink[2]);
    TransformThree(pink[0], pink[1], pink[2]);
    assert Revenue(3.0, 5) == 15.0;
    assert Revenue(2.5, 4) == 10.0;
    assert Revenue(1234.56, 1000) == 1234560.0;
  }

  /** Steps 4 to 6 on three rows whose prices all parse. */
  lemma {:induction false} TransformThree(a: RawRow, b: RawRow, c: RawRow)
    requires RowPrice(a).Some? && RowPrice(b).Some? && RowPrice(c).Some?
    ensures Transform([a, b, c]) == Some([
      SalesRecord(a.date, a.region, Revenue(RowPrice(a).value, a.quantity)),
      SalesRecord(b.date, b.region, Revenue(RowPrice(b).value, b.quantity)),
      SalesRecord(c.date, c.region, Revenue(RowPrice(c).value, c.quantity))])
  {
    var pink := [a, b, c];
    TransformFailsIff(pink);
    TransformRows(pink);
    assert forall k :: 0 <= k < |pink| ==> RowPrice(pink[k]).Some?;
    var out := Transform(pink).value;
    assert out[0] == SalesRecord(a.date, a.region, Revenue(RowPrice(a).value, a.quantity));
    assert out[1] == SalesRecord(b.date, b.region, Revenue(RowPrice(b).value, b.quantity));
    assert out[2] == SalesRecord(c.date, c.region, Revenue(RowPrice(c).value, c.quantity));
    ThreeElements(out);
  }

  lemma {:induction false} ThreeElements<T>(s: seq<T>)
    requires |s| == 3
    ensures s == [s[0], s[1], s[2]]
  {
  }
}
