/**
 * `transformShopifyOrderToInvoice` (transformers/shopifyOrderTransformer.mjs, lines 8-165):
 * the seller and buyer states decide the GST regime, one traversal of the line items
 * carries the discount pool and emits the unit rows, and the totals are summed from the rows.
 */
module ShopifyOrderTransformer {
  import opened Wrappers
  import opened JsBuiltins
  import opened JsNumbers
  import opened GstUtils
  import opened ShopifyOrder
  import opened HsnCode
  import opened InvoiceRows
  import opened LineItemExpansion
  import opened InvoiceTotals

  /** The invoice document's tax-relevant part: the currency symbol, the unit rows and the totals. */
  datatype Invoice = Invoice(currencySymbol: string, lineItems: seq<Row>, totals: Totals)

  /** Whether the order is taxed as an intrastate supply: the seller's state against the buyer's. */
  function OrderIsIntrastate(order: Order, companyState: string): bool
  {
    IsIntrastate(SellerState(companyState), BuyerState(order))
  }

  /**
   * The regime is decided against the shipping province whenever there is one, and the
   * billing province counts only without it; an unset seller state is Punjab.
   */
  lemma RegimeFollowsShippingProvince(order: Order, companyState: string)
    ensures order.shippingProvince != "" ==>
      (OrderIsIntrastate(order, companyState) <==> IsIntrastate(SellerState(companyState), order.shippingProvince))
    ensures order.shippingProvince == "" ==>
      (OrderIsIntrastate(order, companyState) <==> IsIntrastate(SellerState(companyState), order.billingProvince))
    ensures companyState == "" ==>
      (OrderIsIntrastate(order, companyState) <==> IsIntrastate(DefaultCompanyState, BuyerState(order)))
  {
  }

  /** The traversal of the order's line items. */
  function OrderExpansion(order: Order, companyState: string): Expansion
  {
    ExpandItems(LineItemsOf(order), order.currentTotalDiscounts, OrderIsIntrastate(order, companyState))
  }

  /** The invoice the transformation produces, given the `COMPANY_STATE` setting ("" when unset). */
  function InvoiceOf(order: Order, companyState: string): Invoice
  {
    var e := OrderExpansion(order, companyState);
    Invoice(CurrencySymbol(order.currency), e.rows, ComputeTotals(order, e))
  }

  /** Lines 30-52: the HSN code, looked up source by source. */
  method ExtractHsnCode(item: LineItem) returns (hsnCode: string)
    ensures hsnCode == HsnCodeOf(item)
  {
    hsnCode := "";
    var hsnMetafield := FindIndex(item.metafields, IsHsnMetafield);
    if hsnMetafield.Some? {
      hsnCode := item.metafields[hsnMetafield.value].value;
    }
    if hsnCode == "" {
      var hsnProperty := FindIndex(item.properties, IsHsnProperty);
      if hsnProperty.Some? {
        hsnCode := item.properties[hsnProperty.value].value;
      }
    }
    if hsnCode == "" && item.sku != "" {
      var hsnMatch := SkuHsnCode(item.sku);
      if hsnMatch.Some? {
        hsnCode := hsnMatch.value;
      }
    }
  }

  /**
   * Lines 17-113: one pass over the line items in order, each taking its discount,
   * drawing on the shared pool and adding one row per unit.
   */
  method ExpandLineItems(items: seq<LineItem>, totalOrderDiscount: real, isIntrastateTxn: bool)
    returns (lineItems: seq<Row>, remainingOrderDiscount: real, discountAppliedInLineItems: bool)
    ensures Expansion(lineItems, remainingOrderDiscount, discountAppliedInLineItems)
         == ExpandItems(items, totalOrderDiscount, isIntrastateTxn)
  {
    remainingOrderDiscount := totalOrderDiscount;
    discountAppliedInLineItems := false;
    lineItems := [];
    for i := 0 to |items|
      invariant ExpandItems(items[..i], totalOrderDiscount, isIntrastateTxn)
             == Expansion(lineItems, remainingOrderDiscount, discountAppliedInLineItems)
    {
      var item := items[i];
      var hsnCode := ExtractHsnCode(item);
      var initialApproximateBasePrice := item.price / 1.05;
      var discountToUse := if totalOrderDiscount > 0.0 && initialApproximateBasePrice > totalOrderDiscount
        then Min(totalOrderDiscount, remainingOrderDiscount)
        else item.totalDiscount;
      assert discountToUse == DiscountToUse(item, totalOrderDiscount, remainingOrderDiscount);
      if discountToUse > 0.0 && totalOrderDiscount > 0.0 {
        remainingOrderDiscount := remainingOrderDiscount - discountToUse;
        discountAppliedInLineItems := true;
      }
      lineItems := lineItems + ItemRows(item, discountToUse, hsnCode, isIntrastateTxn);
      assert items[..i + 1][..i] == items[..i];
    }
    assert items[..|items|] == items;
  }

  /** The transformation of one order, given the `COMPANY_STATE` setting ("" when unset). */
  method TransformShopifyOrderToInvoice(order: Order, companyState: string) returns (invoice: Invoice)
    ensures invoice == InvoiceOf(order, companyState)
  {
    var currencySymbol := CurrencySymbol(order.currency);
    var sellerState := SellerState(companyState);
    var buyerState := BuyerState(order);
    var isIntrastateTxn := IsIntrastate(sellerState, buyerState);
    var totalOrderDiscount := order.currentTotalDiscounts;
    var lineItems, remainingOrderDiscount, discountAppliedInLineItems :=
      ExpandLineItems(LineItemsOf(order), totalOrderDiscount, isIntrastateTxn);
    var e := Expansion(lineItems, remainingOrderDiscount, discountAppliedInLineItems);
    invoice := Invoice(currencySymbol, lineItems, ComputeTotals(order, e));
  }

  /** One row per unit: the invoice has as many rows as the quantities add up to, none without line items. */
  lemma InvoiceRowCount(order: Order, companyState: string)
    ensures |InvoiceOf(order, companyState).lineItems| == TotalQuantity(LineItemsOf(order))
    ensures order.lineItems.None? ==> InvoiceOf(order, companyState).lineItems == []
  {
    RowCountIsTotalQuantity(LineItemsOf(order), order.currentTotalDiscounts, OrderIsIntrastate(order, companyState));
  }

  /**
   * Every row, and the totals, split the tax by the order's regime: an intrastate invoice
   * shows equal CGST and SGST and no IGST; an interstate one shows only IGST.
   */
  lemma InvoiceTaxSplit(order: Order, companyState: string)
    ensures var inv := InvoiceOf(order, companyState);
      var intra := OrderIsIntrastate(order, companyState);
      && AllSplitUnitRows(inv.lineItems, intra)
      && SumOf(inv.lineItems, RowCgst) + SumOf(inv.lineItems, RowSgst) + SumOf(inv.lineItems, RowIgst) == inv.totals.tax
      && (!intra ==> inv.totals.cgst.None? && inv.totals.sgst.None? && inv.totals.igst == ShownIfPositive(inv.totals.tax))
      && (intra ==> inv.totals.igst.None? && inv.totals.cgst == inv.totals.sgst)
  {
    var intra := OrderIsIntrastate(order, companyState);
    var e := OrderExpansion(order, companyState);
    RowsSplitTax(LineItemsOf(order), order.currentTotalDiscounts, intra);
    TotalsSplitTax(order, e, intra);
  }

  /**
   * With no negative prices, the tax total is non-negative and the CGST, SGST and IGST lines
   * shown (an absent line counting as zero) add up to it.
   */
  lemma ShownGstAddsUp(order: Order, companyState: string)
    requires forall k :: 0 <= k < |LineItemsOf(order)| ==> LineItemsOf(order)[k].price >= 0.0
    ensures var t := InvoiceOf(order, companyState).totals;
      && t.tax >= 0.0
      && OrElse(t.cgst, 0.0) + OrElse(t.sgst, 0.0) + OrElse(t.igst, 0.0) == t.tax
  {
    var intra := OrderIsIntrastate(order, companyState);
    RowsSplitTax(LineItemsOf(order), order.currentTotalDiscounts, intra);
    RowsTaxNonNegative(LineItemsOf(order), order.currentTotalDiscounts, intra);
    ShownComponentsAddUp(order, OrderExpansion(order, companyState), intra);
  }

  /**
   * The order discount is shown once: with a positive order discount and no zero-quantity
   * item, the totals carry a discount line exactly when no row carries a discount, and
   * then it is the whole order discount; otherwise the rows' discounts add up to what the
   * pool gave out.
   */
  lemma DiscountShownOnce(order: Order, companyState: string)
    requires order.currentTotalDiscounts > 0.0
    requires forall k :: 0 <= k < |LineItemsOf(order)| ==> LineItemsOf(order)[k].quantity > 0
    ensures var inv := InvoiceOf(order, companyState);
      var e := OrderExpansion(order, companyState);
      && (inv.totals.discount.Some? <==> SumOf(inv.lineItems, RowDiscount) == 0.0)
      && (inv.totals.discount.Some? ==> inv.totals.discount.value == order.currentTotalDiscounts)
      && SumOf(inv.lineItems, RowDiscount) == order.currentTotalDiscounts - e.remainingOrderDiscount
      && SumOf(inv.lineItems, RowDiscount) >= 0.0
  {
    var items := LineItemsOf(order);
    var intra := OrderIsIntrastate(order, companyState);
    RowDiscountsMatchPoolDraws(items, order.currentTotalDiscounts, intra);
    AppliedIffPoolDrawn(items, order.currentTotalDiscounts, intra);
  }

  /** Without a positive order discount the totals never show a discount line. */
  lemma NoDiscountLineWithoutOrderDiscount(order: Order, companyState: string)
    requires order.currentTotalDiscounts <= 0.0
    ensures InvoiceOf(order, companyState).totals.discount.None?
  {
  }

  /**
   * The shipping charge and the grand total are copied from the order, whatever the rows
   * come to; the total is absent only when the order gives neither total price.
   */
  lemma TotalsCopiedFromOrder(order: Order, companyState: string, other: Order)
    requires other.shippingAmount == order.shippingAmount
    requires other.currentTotalPrice == order.currentTotalPrice && other.totalPrice == order.totalPrice
    ensures var t := InvoiceOf(order, companyState).totals;
      && t.shipping == order.shippingAmount
      && t.total == InvoiceOf(other, companyState).totals.total
      && t.shipping == InvoiceOf(other, companyState).totals.shipping
      && (order.currentTotalPrice.Some? ==> t.total == order.currentTotalPrice)
      && (order.currentTotalPrice.None? ==> t.total == order.totalPrice)
  {
  }

  /** For an INR order the subtotal as the source computes it is the model's subtotal. */
  lemma RupeeSubtotalAsWritten(order: Order, companyState: string)
    requires order.currency == "INR"
    ensures var inv := InvoiceOf(order, companyState);
      AsWrittenSubtotal(inv.currencySymbol, inv.lineItems) == Finite(inv.totals.subtotal)
  {
    AsWrittenSubtotalInRupees(InvoiceOf(order, companyState).lineItems);
  }

  /**
   * For an order in any other currency with at least one unit, the subtotal as the source
   * computes it is NaN, while the model's subtotal is the sum of the displayed row prices.
   */
  lemma ForeignSubtotalAsWritten(order: Order, companyState: string)
    requires IsCurrencyCode(order.currency) && order.currency != "INR"
    requires TotalQuantity(LineItemsOf(order)) > 0
    ensures var inv := InvoiceOf(order, companyState);
      && AsWrittenSubtotal(inv.currencySymbol, inv.lineItems).NaN?
      && JsSum(inv.lineItems, DisplayedSellingPrice) == Finite(inv.totals.subtotal)
  {
    InvoiceRowCount(order, companyState);
    ForeignCurrencySubtotalIsNaN(order.currency, InvoiceOf(order, companyState).lineItems);
    SubtotalReadsRowPrices(order, OrderExpansion(order, companyState));
  }
}
