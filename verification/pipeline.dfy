/** The sales-extract transform (data/task2.py): three extracts of rows
    (date, region, product, quantity, price) are concatenated, only the
    "pink morsel" rows are kept, the price text is cleaned and parsed,
    sales = price * quantity is derived, and each row is projected to
    (date, region, sales). Reading and writing the CSV files is outside
    the model: the extracts are the inputs and the table is the result. */
module SalesPipeline {
  import opened Wrappers
  import opened Currency

  /** Dates pass through the pipeline untouched, as text. */
  type Date = string

  const TARGET_PRODUCT: string := "pink morsel"

  /** A row of a raw extract. */
  datatype RawRow = RawRow(date: Date, region: string, product: string, quantity: int, price: string)

  /** A row once its price column holds a number. */
  datatype PricedRow = PricedRow(date: Date, region: string, product: string, quantity: int, price: real)

  /** A row with the derived sales column. */
  datatype SalesRow = SalesRow(date: Date, region: string, product: string, quantity: int, price: real, sales: real)

  /** A row of the normalized output table: exactly date, region, sales. */
  datatype SalesRecord = SalesRecord(date: Date, region: string, sales: real)

  /** Step 2: the three extracts one after another. Every row keeps its
      field values and its position within its extract. */
  function Concat(e0: seq<RawRow>, e1: seq<RawRow>, e2: seq<RawRow>): (all: seq<RawRow>)
    ensures |all| == |e0| + |e1| + |e2|
    ensures forall i :: 0 <= i < |e0| ==> all[i] == e0[i]
    ensures forall i :: 0 <= i < |e1| ==> all[|e0| + i] == e1[i]
    ensures forall i :: 0 <= i < |e2| ==> all[|e0| + |e1| + i] == e2[i]
  {
    e0 + e1 + e2
  }

  predicate IsTarget(r: RawRow) {
    r.product == TARGET_PRODUCT
  }

  /** Step 3: the boolean mask `product == "pink morsel"` (exact string
      equality; no trimming, no case folding). */
  function FilterProduct(rows: seq<RawRow>): seq<RawRow> {
    if rows == [] then []
    else (if IsTarget(rows[0]) then [rows[0]] else []) + FilterProduct(rows[1..])
  }

  /** The filter is sound and complete: a row occurs in the result as often
      as in the input when its product is the target, and never otherwise. */
  lemma {:induction false} FilterProductCounts(rows: seq<RawRow>, r: RawRow)
    ensures multiset(FilterProduct(rows))[r] == if IsTarget(r) then multiset(rows)[r] else 0
  {
    if rows != [] {
      assert rows == [rows[0]] + rows[1..];
      FilterProductCounts(rows[1..], r);
    }
  }

  /** Every kept row has the target product. */
  lemma {:induction false} FilterProductSound(rows: seq<RawRow>)
    ensures forall k :: 0 <= k < |FilterProduct(rows)| ==> IsTarget(FilterProduct(rows)[k])
  {
    var pink := FilterProduct(rows);
    forall k | 0 <= k < |pink|
      ensures IsTarget(pink[k])
    {
      FilterProductCounts(rows, pink[k]);
      assert pink[k] in multiset(pink);
    }
  }

  /** The filter works piece by piece, so kept rows stay in input order. */
  lemma {:induction false} FilterProductAppend(a: seq<RawRow>, b: seq<RawRow>)
    ensures FilterProduct(a + b) == FilterProduct(a) + FilterProduct(b)
  {
    if a == [] {
      assert a + b == b;
    } else {
      var head := if IsTarget(a[0]) then [a[0]] else [];
      assert (a + b)[0] == a[0];
      assert (a + b)[1..] == a[1..] + b;
      FilterProductAppend(a[1..], b);
      calc {
        FilterProduct(a + b);
        head + FilterProduct(a[1..] + b);
        head + (FilterProduct(a[1..]) + FilterProduct(b));
        (head + FilterProduct(a[1..])) + FilterProduct(b);
        FilterProduct(a) + FilterProduct(b);
      }
    }
  }

  /** Step 4, first half: the price column with every `$` and `,` deleted;
      the other columns are untouched. */
  function CleanPrices(rows: seq<RawRow>): (r: seq<RawRow>)
    ensures |r| == |rows|
    ensures forall k :: 0 <= k < |rows| ==>
      r[k].date == rows[k].date && r[k].region == rows[k].region && r[k].product == rows[k].product
      && r[k].quantity == rows[k].quantity
      && r[k].price == StripCurrency(rows[k].price)
  {
    seq(|rows|, k requires 0 <= k < |rows| => rows[k].(price := StripCurrency(rows[k].price)))
  }

  /** Step 4, second half: `astype(float)` on the cleaned column. It
      succeeds exactly when every price parses, and then gives each row its
      parsed price in place of the text, in the same order. */
  function ParsePrices(rows: seq<RawRow>): (r: Option<seq<PricedRow>>)
    ensures r.Some? <==> forall k :: 0 <= k < |rows| ==> ParsePrice(rows[k].price).Some?
    ensures r.Some? ==> |r.value| == |rows| && forall k :: 0 <= k < |rows| ==>
      r.value[k] == PricedRow(rows[k].date, rows[k].region, rows[k].product, rows[k].quantity,
                              ParsePrice(rows[k].price).value)
  {
    if rows == [] then Some([])
    else match ParsePrice(rows[0].price)
      case None => None
      case Some(p) =>
        match ParsePrices(rows[1..])
        case None => None
        case Some(rest) =>
          Some([PricedRow(rows[0].date, rows[0].region, rows[0].product, rows[0].quantity, p)] + rest)
  }

  /** The revenue of a row: its unit price times the quantity sold. */
  function Revenue(price: real, quantity: int): real {
    price * quantity as real
  }

  /** Step 5: sales = price * quantity on every row, the other columns unchanged. */
  function DeriveSales(rows: seq<PricedRow>): (r: seq<SalesRow>)
    ensures |r| == |rows|
    ensures forall k :: 0 <= k < |rows| ==>
      r[k].sales == Revenue(rows[k].price, rows[k].quantity)
      && r[k].date == rows[k].date && r[k].region == rows[k].region
      && r[k].product == rows[k].product && r[k].quantity == rows[k].quantity
      && r[k].price == rows[k].price
  {
    seq(|rows|, k requires 0 <= k < |rows| =>
      var row := rows[k];
      SalesRow(row.date, row.region, row.product, row.quantity, row.price, Revenue(row.price, row.quantity)))
  }

  /** Step 6: keep the columns date, region, sales, in that order. */
  function Project(rows: seq<SalesRow>): (r: seq<SalesRecord>)
    ensures |r| == |rows|
    ensures forall k :: 0 <= k < |rows| ==>
      r[k].date == rows[k].date && r[k].region == rows[k].region && r[k].sales == rows[k].sales
  {
    seq(|rows|, k requires 0 <= k < |rows| => SalesRecord(rows[k].date, rows[k].region, rows[k].sales))
  }

  /** Steps 4 to 6 on the kept rows. */
  function Transform(pink: seq<RawRow>): Option<seq<SalesRecord>> {
    match ParsePrices(CleanPrices(pink))
    case None => None
    case Some(priced) => Some(Project(DeriveSales(priced)))
  }

  /** The whole script: None when a kept row's price does not parse (the
      run aborts and writes nothing), otherwise the normalized table. */
  function Pipeline(e0: seq<RawRow>, e1: seq<RawRow>, e2: seq<RawRow>): Option<seq<SalesRecord>> {
    Transform(FilterProduct(Concat(e0, e1, e2)))
  }

  /** The price a raw row contributes: its text cleaned, then parsed. */
  function RowPrice(row: RawRow): Option<real> {
    ParsePrice(StripCurrency(row.price))
  }

  /** Steps 4 to 6 fail exactly when some row's price does not parse. */
  lemma {:induction false} TransformFailsIff(pink: seq<RawRow>)
    ensures Transform(pink).None? <==> exists k :: 0 <= k < |pink| && RowPrice(pink[k]).None?
  {
    var clean := CleanPrices(pink);
    assert forall k :: 0 <= k < |pink| ==> RowPrice(pink[k]) == ParsePrice(clean[k].price);
  }

  /** When steps 4 to 6 succeed they give one record per row, in order,
      with sales = parsed clean price * quantity. */
  lemma {:induction false} TransformRows(pink: seq<RawRow>)
    ensures Transform(pink).Some? ==>
      var out := Transform(pink).value;
      |out| == |pink| && forall k :: 0 <= k < |out| ==>
        RowPrice(pink[k]).Some?
        && out[k] == SalesRecord(pink[k].date, pink[k].region, Revenue(RowPrice(pink[k]).value, pink[k].quantity))
  {
    var clean := CleanPrices(pink);
    match ParsePrices(clean)
    case None =>
    case Some(priced) =>
      var sales := DeriveSales(priced);
      var out := Project(sales);
      forall k | 0 <= k < |out|
        ensures RowPrice(pink[k]).Some?
        ensures out[k] == SalesRecord(pink[k].date, pink[k].region, Revenue(RowPrice(pink[k]).value, pink[k].quantity))
      {
        assert RowPrice(pink[k]) == ParsePrice(clean[k].price);
        assert priced[k].price == RowPrice(pink[k]).value;
        assert priced[k].quantity == pink[k].quantity;
      }
  }

  /** The kept rows are the target-product rows of the three extracts, in
      extract order and, within an extract, in row order. */
  lemma {:induction false} KeptRows(e0: seq<RawRow>, e1: seq<RawRow>, e2: seq<RawRow>)
    ensures FilterProduct(Concat(e0, e1, e2)) == FilterProduct(e0) + FilterProduct(e1) + FilterProduct(e2)
  {
    FilterProductAppend(e0 + e1, e2);
    FilterProductAppend(e0, e1);
  }

  /** The run fails exactly when some target-product row's price does not
      parse; a row with another product is never parsed and cannot make it fail. */
  lemma {:induction false} PipelineFailsIff(e0: seq<RawRow>, e1: seq<RawRow>, e2: seq<RawRow>)
    ensures Pipeline(e0, e1, e2).None? <==>
      exists row :: row in e0 + e1 + e2 && IsTarget(row) && RowPrice(row).None?
  {
    var all := Concat(e0, e1, e2);
    var pink := FilterProduct(all);
    TransformFailsIff(pink);
    if Pipeline(e0, e1, e2).None? {
      var k :| 0 <= k < |pink| && RowPrice(pink[k]).None?;
      FilterProductCounts(all, pink[k]);
      assert pink[k] in multiset(pink);
    }
    if row :| row in all && IsTarget(row) && RowPrice(row).None? {
      FilterProductCounts(all, row);
      assert row in multiset(pink);
      var k :| 0 <= k < |pink| && pink[k] == row;
    }
  }

  /** Every output row comes from the kept row at the same position: same
      date and region, and sales = parsed clean price * quantity; there are
      as many output rows as target-product rows in the three extracts. */
  lemma {:induction false} PipelineRows(e0: seq<RawRow>, e1: seq<RawRow>, e2: seq<RawRow>)
    ensures var pink := FilterProduct(e0) + FilterProduct(e1) + FilterProduct(e2);
      Pipeline(e0, e1, e2).Some? ==>
        var out := Pipeline(e0, e1, e2).value;
        |out| == |pink| && forall k :: 0 <= k < |out| ==>
          && IsTarget(pink[k])
          && RowPrice(pink[k]).Some?
          && out[k] == SalesRecord(pink[k].date, pink[k].region, Revenue(RowPrice(pink[k]).value, pink[k].quantity))
  {
    KeptRows(e0, e1, e2);
    FilterProductSound(Concat(e0, e1, e2));
    TransformRows(FilterProduct(Concat(e0, e1, e2)));
  }

  /** Adding a row with another product anywhere in an extract leaves the
      kept rows of that extract as they were. */
  lemma {:induction false} FilterProductInsertOther(e: seq<RawRow>, row: RawRow, at: nat)
    requires !IsTarget(row) && at <= |e|
    ensures FilterProduct(e[..at] + [row] + e[at..]) == FilterProduct(e)
  {
    FilterProductAppend(e[..at] + [row], e[at..]);
    FilterProductAppend(e[..at], [row]);
    FilterProductAppend(e[..at], e[at..]);
    assert e[..at] + e[at..] == e;
    assert FilterProduct([row]) == [];
  }

  /** A row with another product, whatever its price text, can be added
      anywhere in any of the three extracts without changing the result. */
  lemma {:induction false} PipelineIgnoresOtherProducts(e0: seq<RawRow>, e1: seq<RawRow>, e2: seq<RawRow>, row: RawRow, at0: nat, at1: nat, at2: nat)
    requires !IsTarget(row) && at0 <= |e0| && at1 <= |e1| && at2 <= |e2|
    ensures Pipeline(e0[..at0] + [row] + e0[at0..], e1, e2) == Pipeline(e0, e1, e2)
    ensures Pipeline(e0, e1[..at1] + [row] + e1[at1..], e2) == Pipeline(e0, e1, e2)
    ensures Pipeline(e0, e1, e2[..at2] + [row] + e2[at2..]) == Pipeline(e0, e1, e2)
  {
    var e0', e1', e2' := e0[..at0] + [row] + e0[at0..], e1[..at1] + [row] + e1[at1..], e2[..at2] + [row] + e2[at2..];
    FilterProductInsertOther(e0, row, at0);
    FilterProductInsertOther(e1, row, at1);
    FilterProductInsertOther(e2, row, at2);
    KeptRows(e0, e1, e2);
    KeptRows(e0', e1, e2);
    KeptRows(e0, e1', e2);
    KeptRows(e0, e1, e2');
  }
}
