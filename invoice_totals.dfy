/**
 * The invoice totals (transformers/shopifyOrderTransformer.mjs, lines 115-127 and 150-163):
 * sums over the unit rows, the order's own shipping charge and grand total, and the
 * order discount shown only when it did not go into the rows.
 */
module InvoiceTotals {
  import opened Wrappers
  import opened JsBuiltins
  import opened JsNumbers
  import opened ShopifyOrder
  import opened InvoiceRows
  import opened LineItemExpansion

  /** A row's pre-tax price as the subtotal reads it back from the row. */
  function RowSubtotal(row: Row): real
  {
    Round2(row.sellingPrice)
  }

  datatype Totals = Totals(
    subtotal: real,
    discount: Option<real>,   // the order discount, shown as a deduction, or null
    shipping: real,
    tax: real,
    cgst: Option<real>,
    sgst: Option<real>,
    igst: Option<real>,
    total: Option<real>       // None when the order gives no total (the source's NaN)
  )

  /** A GST component total appears only when it is positive. */
  function ShownIfPositive(amount: real): (shown: Option<real>)
    ensures shown.Some? <==> amount > 0.0
    ensures shown.Some? ==> shown.value == amount
  {
    if amount > 0.0 then Some(amount) else None
  }

  /** `current_total_price || total_price`: the grand total, copied from the order. */
  function GrandTotal(order: Order): (total: Option<real>)
    ensures total == order.currentTotalPrice || total == order.totalPrice
    ensures total.None? <==> order.currentTotalPrice.None? && order.totalPrice.None?
  {
    if order.currentTotalPrice.Some? then order.currentTotalPrice else order.totalPrice
  }

  /** The totals of an order whose line items expanded into `e`. */
  function ComputeTotals(order: Order, e: Expansion): Totals
  {
    var lineItems := e.rows;
    var calculatedTotalTax := SumOf(lineItems, RowTax);
    var totalCgst := SumOf(lineItems, RowCgst);
    var totalSgst := SumOf(lineItems, RowSgst);
    var totalIgst := SumOf(lineItems, RowIgst);
    var totalOrderDiscount := order.currentTotalDiscounts;
    Totals(
      subtotal := SumOf(lineItems, RowSubtotal),
      discount := if !e.discountAppliedInLineItems && totalOrderDiscount > 0.0 then Some(totalOrderDiscount) else None,
      shipping := order.shippingAmount,
      tax := calculatedTotalTax,
      cgst := ShownIfPositive(totalCgst),
      sgst := ShownIfPositive(totalSgst),
      igst := ShownIfPositive(totalIgst),
      total := GrandTotal(order))
  }

  /** The order discount line appears exactly when the discount did not go into the rows and is positive. */
  lemma DiscountLineRule(order: Order, e: Expansion)
    ensures ComputeTotals(order, e).discount.Some?
        <==> !e.discountAppliedInLineItems && order.currentTotalDiscounts > 0.0
    ensures ComputeTotals(order, e).discount.Some? ==> ComputeTotals(order, e).discount.value == order.currentTotalDiscounts
  {
  }

  /**
   * Over rows that each split their tax under one regime, the CGST, SGST and IGST totals add up
   * to the tax total; interstate rows give no CGST or SGST line, intrastate rows no IGST line.
   */
  lemma {:induction false} TotalsSplitTax(order: Order, e: Expansion, isIntrastateTxn: bool)
    requires AllSplitUnitRows(e.rows, isIntrastateTxn)
    ensures var t := ComputeTotals(order, e);
      && SumOf(e.rows, RowCgst) + SumOf(e.rows, RowSgst) + SumOf(e.rows, RowIgst) == t.tax
      && (!isIntrastateTxn ==> t.cgst.None? && t.sgst.None? && t.igst == ShownIfPositive(t.tax))
      && (isIntrastateTxn ==> t.igst.None? && t.cgst == t.sgst)
  {
    var rows := e.rows;
    SumOfSplit(rows);
    if isIntrastateTxn {
      SumOfZero(rows, RowIgst);
      SumOfEqual(rows, RowCgst, RowSgst);
    } else {
      SumOfZero(rows, RowCgst);
      SumOfZero(rows, RowSgst);
    }
  }

  /**
   * Over split rows with non-negative taxes, the GST lines shown in the totals (an absent
   * line counting as zero) add up to the tax total.
   */
  lemma ShownComponentsAddUp(order: Order, e: Expansion, isIntrastateTxn: bool)
    requires AllSplitUnitRows(e.rows, isIntrastateTxn) && AllTaxNonNegative(e.rows)
    ensures var t := ComputeTotals(order, e);
      && t.tax >= 0.0
      && OrElse(t.cgst, 0.0) + OrElse(t.sgst, 0.0) + OrElse(t.igst, 0.0) == t.tax
  {
    var rows := e.rows;
    TotalsSplitTax(order, e, isIntrastateTxn);
    SumOfNonNegative(rows, RowCgst);
    SumOfNonNegative(rows, RowSgst);
    SumOfNonNegative(rows, RowIgst);
  }

  lemma {:induction false} SumOfEqual(rows: seq<Row>, f: Row -> real, g: Row -> real)
    requires forall k :: 0 <= k < |rows| ==> f(rows[k]) == g(rows[k])
    ensures SumOf(rows, f) == SumOf(rows, g)
    decreases |rows|
  {
    if rows != [] {
      SumOfEqual(rows[..|rows| - 1], f, g);
    }
  }

  function RowSellingPrice(row: Row): real { row.sellingPrice }

  /** Each row's pre-tax price enters the subtotal within half a hundredth of its exact value. */
  lemma {:induction false} SubtotalNearPreTaxSum(rows: seq<Row>)
    ensures SumOf(rows, RowSellingPrice) - 0.005 * |rows| as real
         <= SumOf(rows, RowSubtotal)
         <= SumOf(rows, RowSellingPrice) + 0.005 * |rows| as real
    decreases |rows|
  {
    if rows != [] {
      SubtotalNearPreTaxSum(rows[..|rows| - 1]);
    }
  }

  /** How the invoice writes an amount: `${currencySymbol} ${amount.toFixed(2)}`. */
  function AmountText(currencySymbol: string, amount: real): string
  {
    currencySymbol + " " + ToFixed2(amount)
  }

  /** The sum, in JavaScript Numbers, of what `read` gives for each row, from 0. */
  function JsSum(rows: seq<Row>, read: Row -> JsNumber): JsNumber
    decreases |rows|
  {
    if rows == [] then Finite(0.0) else Add(JsSum(rows[..|rows| - 1], read), read(rows[|rows| - 1]))
  }

  /** When every row reads as a finite number, the JavaScript sum is the exact sum. */
  lemma {:induction false} JsSumOfFinite(rows: seq<Row>, read: Row -> JsNumber, f: Row -> real)
    requires forall k :: 0 <= k < |rows| ==> read(rows[k]) == Finite(f(rows[k]))
    ensures JsSum(rows, read) == Finite(SumOf(rows, f))
    decreases |rows|
  {
    if rows != [] {
      JsSumOfFinite(rows[..|rows| - 1], read, f);
    }
  }

  /** The number part of a row's displayed pre-tax price, read back with `parseFloat`. */
  function DisplayedSellingPrice(row: Row): JsNumber
  {
    ParseFloat(ToFixed2(row.sellingPrice))
  }

  /**
   * The subtotal is the sum of the rows' pre-tax prices as displayed: reading back the
   * number in each row's price and adding them gives exactly the subtotal, in every currency.
   */
  lemma SubtotalReadsRowPrices(order: Order, e: Expansion)
    ensures JsSum(e.rows, DisplayedSellingPrice) == Finite(ComputeTotals(order, e).subtotal)
  {
    forall k | 0 <= k < |e.rows|
      ensures DisplayedSellingPrice(e.rows[k]) == Finite(RowSubtotal(e.rows[k]))
    {
      ParseFixedRoundTrip(e.rows[k].sellingPrice);
    }
    JsSumOfFinite(e.rows, DisplayedSellingPrice, RowSubtotal);
  }

  /**
   * Line 125 as written: the row's displayed pre-tax price, with the first "Rs. " and every
   * comma removed, read back with `parseFloat`.
   */
  function SellingPriceReadBack(currencySymbol: string, row: Row): JsNumber
  {
    ParseFloat(RemoveAll(ReplaceFirst(AmountText(currencySymbol, row.sellingPrice), "Rs. ", ""), ','))
  }

  /** Lines 124-127 as written: the read-back prices added up from 0. */
  function AsWrittenSubtotal(currencySymbol: string, rows: seq<Row>): JsNumber
  {
    JsSum(rows, row => SellingPriceReadBack(currencySymbol, row))
  }

  /** In rupees the read-back strips the symbol and gives the rounded price. */
  lemma RupeeReadBack(row: Row)
    ensures SellingPriceReadBack("Rs.", row) == Finite(RowSubtotal(row))
  {
    var fixed := ToFixed2(row.sellingPrice);
    var text := AmountText("Rs.", row.sellingPrice);
    assert text == "Rs. " + fixed;
    assert OccursAt(text, "Rs. ", 0);
    assert text[4..] == fixed;
    assert ReplaceFirst(text, "Rs. ", "") == fixed;
    assert RemoveAll(fixed, ',') == fixed;
    ParseFixedRoundTrip(row.sellingPrice);
  }

  /** For an INR order the subtotal as written is the rounded prices' sum. */
  lemma AsWrittenSubtotalInRupees(rows: seq<Row>)
    ensures AsWrittenSubtotal("Rs.", rows) == Finite(SumOf(rows, RowSubtotal))
  {
    forall k | 0 <= k < |rows|
      ensures SellingPriceReadBack("Rs.", rows[k]) == Finite(RowSubtotal(rows[k]))
    {
      RupeeReadBack(rows[k]);
    }
    JsSumOfFinite(rows, row => SellingPriceReadBack("Rs.", row), RowSubtotal);
  }

  /** A currency code of the ISO 4217 shape: three capital ASCII letters. */
  predicate IsCurrencyCode(code: string)
  {
    |code| == 3 && forall k :: 0 <= k < 3 ==> 'A' <= code[k] <= 'Z'
  }

  /** "Rs. " does not occur in a price text that starts with a currency code. */
  lemma NoRupeePrefix(currency: string, fixed: string)
    requires IsCurrencyCode(currency)
    requires forall k :: 0 <= k < |fixed| ==> IsAsciiDigit(fixed[k]) || fixed[k] == '.' || fixed[k] == '-'
    ensures FirstOccurrence(currency + " " + fixed, "Rs. ", 0).None?
  {
    var text := currency + " " + fixed;
    forall k | 1 <= k < |text| ensures text[k] != 's' {
      if k >= 4 {
        assert text[k] == fixed[k - 4];
      }
    }
    var rupee := "Rs. ";
    assert rupee[1] == 's';
    NotOccurringWithoutSecondChar(text, rupee);
  }

  /** Text that starts with two capital letters, or is one capital letter, parses as NaN. */
  lemma CapitalTextIsNaN(text: string)
    requires text != [] && 'A' <= text[0] <= 'Z' && (|text| >= 2 ==> 'A' <= text[1] <= 'Z')
    ensures ParseFloat(text).NaN?
  {
    TrimStartUnchanged(text);
    assert !StartsWithInfinity(text) by {
      if |text| >= 8 {
        assert text[..8][1] == text[1];
      }
    }
    assert DigitRun(text, 0) == 0;
  }

  /** In any other currency the displayed price starts with a letter, so `parseFloat` gives NaN. */
  lemma ForeignReadBack(currency: string, row: Row)
    requires IsCurrencyCode(currency)
    ensures SellingPriceReadBack(currency, row).NaN?
  {
    var fixed := ToFixed2(row.sellingPrice);
    var text := AmountText(currency, row.sellingPrice);
    assert text == currency + " " + fixed;
    NoRupeePrefix(currency, fixed);
    assert ReplaceFirst(text, "Rs. ", "") == text;
    forall k | 0 <= k < |text| ensures text[k] != ',' {
      if k >= 4 {
        assert text[k] == fixed[k - 4];
      }
    }
    assert RemoveAll(text, ',') == text;
    CapitalTextIsNaN(text);
  }

  /**
   * The subtotal as written is NaN for every non-empty order in a currency other than INR:
   * the read-back removes only "Rs. ", and the price text then starts with the currency code.
   */
  lemma ForeignCurrencySubtotalIsNaN(currency: string, rows: seq<Row>)
    requires IsCurrencyCode(currency) && currency != "INR" && rows != []
    ensures AsWrittenSubtotal(CurrencySymbol(currency), rows).NaN?
  {
    ForeignReadBack(currency, rows[|rows| - 1]);
  }
}
