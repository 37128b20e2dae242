/**
 * One invoice row per physical unit: the discount an item takes, the tax slab, the
 * per-unit figures and their GST split (transformers/shopifyOrderTransformer.mjs,
 * lines 54-112), and the sums over rows that the totals are built from (lines 115-127).
 */
module InvoiceRows {
  import opened Wrappers
  import opened ShopifyOrder
  import opened GstUtils
  import opened HsnCode

  /** A GST rate and the divisor that takes a GST-inclusive price back to its base. */
  datatype TaxSlab = TaxSlab(rate: real, divisor: real)

  const LowerSlab: TaxSlab := TaxSlab(0.05, 1.05)
  const HigherSlab: TaxSlab := TaxSlab(0.18, 1.18)

  /** The discounted pre-tax price from which the higher slab applies. */
  const SlabThreshold: real := 2500.0

  /**
   * The slab of a row: the lower one, unless the price's base at the lower rate, less the
   * row's discount, is at least the threshold.
   */
  function ChooseSlab(sellingPriceWithTax: real, rowDiscount: real): (slab: TaxSlab)
    ensures slab == HigherSlab || slab == LowerSlab
    ensures slab == HigherSlab <==> sellingPriceWithTax / 1.05 - rowDiscount >= 2500.0
    ensures slab.divisor == 1.0 + slab.rate
  {
    var sellingPriceBase := sellingPriceWithTax / LowerSlab.divisor;
    if sellingPriceBase - rowDiscount >= SlabThreshold then HigherSlab else LowerSlab
  }

  /** `Math.min`. */
  function Min(a: real, b: real): (m: real)
    ensures m <= a && m <= b && (m == a || m == b)
  {
    if a <= b then a else b
  }

  /**
   * The order-level discount is the source for an item when there is one and the item's
   * price, taken back at 5%, exceeds it.
   */
  predicate UsesOrderDiscount(item: LineItem, totalOrderDiscount: real)
  {
    totalOrderDiscount > 0.0 && item.price / LowerSlab.divisor > totalOrderDiscount
  }

  /**
   * `discountToUse`: from the order pool, never more than the order discount or what
   * remains of it; otherwise the item's own discount.
   */
  function DiscountToUse(item: LineItem, totalOrderDiscount: real, remainingOrderDiscount: real): (d: real)
    ensures UsesOrderDiscount(item, totalOrderDiscount) ==>
      d <= totalOrderDiscount && d <= remainingOrderDiscount
      && (d == totalOrderDiscount || d == remainingOrderDiscount)
    ensures !UsesOrderDiscount(item, totalOrderDiscount) ==> d == item.totalDiscount
  {
    if UsesOrderDiscount(item, totalOrderDiscount)
    then Min(totalOrderDiscount, remainingOrderDiscount)
    else item.totalDiscount
  }

  /** A unit row of the invoice; amounts are exact, before any two-decimal display. */
  datatype Row = Row(
    name: string,
    description: Option<string>,
    sku: Option<string>,
    quantity: nat,
    mrp: real,
    discount: real,             // the discount shown on the row
    sellingPrice: real,         // pre-tax price after the row's discount
    tax: real,                  // `_totalItemTax`: the GST in one unit
    sellingPriceAfterTax: real,
    cgst: real,
    sgst: real,
    igst: real
  )

  /** The MRP: the compare-at price when there is one, else the selling price. */
  function Mrp(item: LineItem): (mrp: real)
    ensures item.compareAtPrice.None? ==> mrp == item.price
    ensures item.compareAtPrice.Some? ==> mrp == item.compareAtPrice.value
  {
    OrElse(item.compareAtPrice, item.price)
  }

  /**
   * The row for unit `index` of `item`. Only unit 0 carries the item's discount, and
   * only when it is positive. The tax is the slab's rate on the undiscounted base, the
   * base plus the tax is the GST-inclusive price, and the tax is split by regime.
   */
  function UnitRow(item: LineItem, index: nat, discountToUse: real, hsnCode: string, isIntrastateTxn: bool)
    : (row: Row)
    ensures row.quantity == 1
    ensures row.discount == (if index == 0 && discountToUse > 0.0 then discountToUse else 0.0)
    ensures row.mrp == Mrp(item)
    ensures row.name == NameWithHsn(item, hsnCode)
    ensures var rate := if item.price / 1.05 - row.discount >= 2500.0 then 0.18 else 0.05;
      && row.sellingPrice + row.discount == item.price / (1.0 + rate)
      && row.tax == rate * (row.sellingPrice + row.discount)
    ensures row.sellingPrice + row.discount + row.tax == item.price
    ensures row.sellingPriceAfterTax == item.price - row.discount
    ensures row.cgst + row.sgst + row.igst == row.tax
    ensures isIntrastateTxn ==> row.cgst == row.sgst && row.igst == 0.0
    ensures !isIntrastateTxn ==> row.cgst == 0.0 && row.sgst == 0.0
  {
    var sellingPriceWithTax := item.price;
    var hasDiscount := index == 0 && discountToUse > 0.0;
    var slab := ChooseSlab(sellingPriceWithTax, if hasDiscount then discountToUse else 0.0);
    var sellingPriceBase := sellingPriceWithTax / slab.divisor;
    var perUnitTax := sellingPriceWithTax - sellingPriceBase;
    var finalSellingPriceAfterDiscount := if hasDiscount then sellingPriceBase - discountToUse else sellingPriceBase;
    var finalSellingPriceAfterTax := finalSellingPriceAfterDiscount + perUnitTax;
    var gstBreakdown := CalculateGstBreakdown(perUnitTax, isIntrastateTxn);
    Row(
      name := NameWithHsn(item, hsnCode),
      description := if item.variantTitle != "" then Some("Variant: " + item.variantTitle) else None,
      sku := if item.sku != "" then Some(item.sku) else None,
      quantity := 1,
      mrp := Mrp(item),
      discount := if hasDiscount then discountToUse else 0.0,
      sellingPrice := finalSellingPriceAfterDiscount,
      tax := perUnitTax,
      sellingPriceAfterTax := finalSellingPriceAfterTax,
      cgst := gstBreakdown.cgst,
      sgst := gstBreakdown.sgst,
      igst := gstBreakdown.igst
    )
  }

  /** `Array.from({ length: quantity }, ...)`: the rows of one line item, one per unit. */
  function ItemRows(item: LineItem, discountToUse: real, hsnCode: string, isIntrastateTxn: bool): seq<Row>
  {
    seq(item.quantity, k requires 0 <= k < item.quantity => UnitRow(item, k, discountToUse, hsnCode, isIntrastateTxn))
  }

  /** The units of a line item: as many rows as its quantity, each of quantity 1; only the first shows a discount. */
  lemma ItemRowsUnits(item: LineItem, discountToUse: real, hsnCode: string, isIntrastateTxn: bool)
    ensures var rows := ItemRows(item, discountToUse, hsnCode, isIntrastateTxn);
      && |rows| == item.quantity
      && (forall k :: 0 <= k < |rows| ==> rows[k].quantity == 1)
      && (item.quantity > 0 && discountToUse > 0.0 ==> rows[0].discount == discountToUse)
      && (forall k :: 0 < k < |rows| ==> rows[k].discount == 0.0 && rows[k].sellingPrice + rows[k].tax == item.price)
      && (forall j, k :: 0 < j < |rows| && 0 < k < |rows| ==> rows[j] == rows[k])
  {
  }

  /** A row of quantity 1 whose CGST, SGST and IGST are the split of its tax under the given regime. */
  predicate SplitUnitRow(row: Row, isIntrastateTxn: bool)
  {
    && row.quantity == 1
    && row.cgst + row.sgst + row.igst == row.tax
    && (isIntrastateTxn ==> row.cgst == row.sgst && row.igst == 0.0)
    && (!isIntrastateTxn ==> row.cgst == 0.0 && row.sgst == 0.0)
  }

  /** Every row is a split unit row. */
  predicate AllSplitUnitRows(rows: seq<Row>, isIntrastateTxn: bool)
  {
    forall k :: 0 <= k < |rows| ==> SplitUnitRow(rows[k], isIntrastateTxn)
  }

  lemma ItemRowsSplit(item: LineItem, discountToUse: real, hsnCode: string, isIntrastateTxn: bool)
    ensures AllSplitUnitRows(ItemRows(item, discountToUse, hsnCode, isIntrastateTxn), isIntrastateTxn)
  {
  }

  /** Every row's tax is non-negative. */
  predicate AllTaxNonNegative(rows: seq<Row>)
  {
    forall k :: 0 <= k < |rows| ==> rows[k].tax >= 0.0
  }

  /** A unit priced at zero or more carries a non-negative tax, whatever its discount. */
  lemma UnitRowTaxNonNegative(item: LineItem, index: nat, discountToUse: real, hsnCode: string, isIntrastateTxn: bool)
    requires item.price >= 0.0
    ensures UnitRow(item, index, discountToUse, hsnCode, isIntrastateTxn).tax >= 0.0
  {
    var row := UnitRow(item, index, discountToUse, hsnCode, isIntrastateTxn);
    if item.price / 1.05 - row.discount >= 2500.0 {
      assert row.tax == 0.18 * (item.price / 1.18);
    } else {
      assert row.tax == 0.05 * (item.price / 1.05);
    }
  }

  lemma ItemRowsTaxNonNegative(item: LineItem, discountToUse: real, hsnCode: string, isIntrastateTxn: bool)
    requires item.price >= 0.0
    ensures AllTaxNonNegative(ItemRows(item, discountToUse, hsnCode, isIntrastateTxn))
  {
    var rows := ItemRows(item, discountToUse, hsnCode, isIntrastateTxn);
    forall k | 0 <= k < |rows| ensures rows[k].tax >= 0.0 {
      UnitRowTaxNonNegative(item, k, discountToUse, hsnCode, isIntrastateTxn);
    }
  }

  /** `rows.reduce((sum, row) => sum + f(row), 0)`. */
  function SumOf(rows: seq<Row>, f: Row -> real): real
    decreases |rows|
  {
    if rows == [] then 0.0 else SumOf(rows[..|rows| - 1], f) + f(rows[|rows| - 1])
  }

  function RowTax(row: Row): real { row.tax }
  function RowCgst(row: Row): real { row.cgst }
  function RowSgst(row: Row): real { row.sgst }
  function RowIgst(row: Row): real { row.igst }
  function RowDiscount(row: Row): real { row.discount }

  lemma {:induction false} SumOfConcat(a: seq<Row>, b: seq<Row>, f: Row -> real)
    ensures SumOf(a + b, f) == SumOf(a, f) + SumOf(b, f)
    decreases |b|
  {
    if b != [] {
      assert (a + b)[..|a + b| - 1] == a + b[..|b| - 1];
      SumOfConcat(a, b[..|b| - 1], f);
    } else {
      assert a + b == a;
    }
  }

  /** A sum where only the first row contributes is that row's value. */
  lemma SumOfFirstOnly(rows: seq<Row>, f: Row -> real)
    requires rows != [] && forall k :: 0 < k < |rows| ==> f(rows[k]) == 0.0
    ensures SumOf(rows, f) == f(rows[0])
  {
    var tail := rows[1..];
    assert rows == [rows[0]] + tail;
    SumOfConcat([rows[0]], tail, f);
    SumOfZero(tail, f);
    assert [rows[0]][..0] == [];
  }

  lemma {:induction false} SumOfZero(rows: seq<Row>, f: Row -> real)
    requires forall k :: 0 <= k < |rows| ==> f(rows[k]) == 0.0
    ensures SumOf(rows, f) == 0.0
    decreases |rows|
  {
    if rows != [] {
      SumOfZero(rows[..|rows| - 1], f);
    }
  }

  lemma {:induction false} SumOfNonNegative(rows: seq<Row>, f: Row -> real)
    requires forall k :: 0 <= k < |rows| ==> f(rows[k]) >= 0.0
    ensures SumOf(rows, f) >= 0.0
    decreases |rows|
  {
    if rows != [] {
      SumOfNonNegative(rows[..|rows| - 1], f);
    }
  }

  /** Summed over any rows that each split their tax, the CGST, SGST and IGST add up to the tax. */
  lemma {:induction false} SumOfSplit(rows: seq<Row>)
    requires forall k :: 0 <= k < |rows| ==> rows[k].cgst + rows[k].sgst + rows[k].igst == rows[k].tax
    ensures SumOf(rows, RowCgst) + SumOf(rows, RowSgst) + SumOf(rows, RowIgst) == SumOf(rows, RowTax)
    decreases |rows|
  {
    if rows != [] {
      SumOfSplit(rows[..|rows| - 1]);
    }
  }

  /** The discounts shown on an item's rows add up to its discount when it is positive and there is a unit to carry it, else to 0. */
  lemma {:induction false} ItemRowsDiscountSum(item: LineItem, discountToUse: real, hsnCode: string, isIntrastateTxn: bool)
    ensures SumOf(ItemRows(item, discountToUse, hsnCode, isIntrastateTxn), RowDiscount)
         == if item.quantity > 0 && discountToUse > 0.0 then discountToUse else 0.0
  {
    var rows := ItemRows(item, discountToUse, hsnCode, isIntrastateTxn);
    if item.quantity == 0 {
      assert rows == [];
    } else {
      SumOfFirstOnly(rows, RowDiscount);
    }
  }
}
