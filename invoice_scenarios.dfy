/**
 * Concrete orders worked through the model: the discounted interstate order of the
 * sample data, an undiscounted intrastate order in the higher slab, the slab boundary,
 * and a multi-unit item.
 */
module InvoiceScenarios {
  import opened Wrappers
  import opened JsBuiltins
  import opened JsNumbers
  import opened GstUtils
  import opened ShopifyOrder
  import opened HsnCode
  import opened InvoiceRows
  import opened LineItemExpansion
  import opened InvoiceTotals
  import opened ShopifyOrderTransformer

  function PlainItem(price: real, quantity: nat, totalDiscount: real): LineItem
  {
    LineItem("Kurta", "", price, quantity, totalDiscount, None, [], [], "", "")
  }

  function SingleItemOrder(province: string, item: LineItem, orderDiscount: real): Order
  {
    Order("INR", province, "", Some([item]), orderDiscount, 0.0, Some(item.price - orderDiscount), None)
  }

  /** The default seller state, Punjab, and Maharashtra have different codes. */
  lemma PunjabAndMaharashtraDiffer()
    ensures !IsIntrastate(SellerState(""), "Maharashtra")
  {
    assert StateCodes[27].0 == "Punjab";
    assert StateCodes[20].0 == "Maharashtra";
    TableStatesIntrastate(27, 20);
  }

  /**
   * A unit priced 2590.00, an order discount of 400.00, sold from Punjab to Maharashtra:
   * one row with the whole discount, in the 5% slab, all of its tax as IGST, and no
   * discount line in the totals.
   */
  lemma InterstateDiscountedOrder()
    ensures var inv := InvoiceOf(SingleItemOrder("Maharashtra", PlainItem(2590.0, 1, 0.0), 400.0), "");
      && |inv.lineItems| == 1
      && inv.currencySymbol == "Rs."
      && inv.lineItems[0].mrp == 2590.0
      && inv.lineItems[0].discount == 400.0
      && inv.lineItems[0].sellingPrice == 2590.0 / 1.05 - 400.0
      && inv.lineItems[0].tax == 2590.0 - 2590.0 / 1.05
      && inv.lineItems[0].igst == inv.lineItems[0].tax > 0.0
      && inv.lineItems[0].cgst == 0.0 && inv.lineItems[0].sgst == 0.0
      && inv.totals.discount.None?
      && inv.totals.cgst.None? && inv.totals.sgst.None?
      && inv.totals.tax == inv.lineItems[0].tax
      && inv.totals.subtotal == 2066.67
  {
    PunjabAndMaharashtraDiffer();
    var order := SingleItemOrder("Maharashtra", PlainItem(2590.0, 1, 0.0), 400.0);
    assert !OrderIsIntrastate(order, "");
    var x := 2590.0 / 1.05 - 400.0;
    assert (x * 100.0 + 0.5).Floor == 206667;
  }

  /**
   * A single undiscounted unit priced 3000.00 sold within Punjab: the 18% slab applies and
   * the tax is split evenly into CGST and SGST.
   */
  lemma IntrastateHigherSlabOrder()
    ensures var inv := InvoiceOf(SingleItemOrder("Punjab", PlainItem(3000.0, 1, 0.0), 0.0), "");
      && |inv.lineItems| == 1
      && inv.lineItems[0].discount == 0.0
      && inv.lineItems[0].sellingPrice == 3000.0 / 1.18
      && inv.lineItems[0].tax == 3000.0 - 3000.0 / 1.18
      && inv.lineItems[0].cgst == inv.lineItems[0].sgst == inv.lineItems[0].tax / 2.0
      && inv.lineItems[0].igst == 0.0
      && inv.totals.igst.None? && inv.totals.cgst == Some(inv.lineItems[0].tax / 2.0)
      && inv.totals.discount.None?
  {
    assert StateCodes[27].0 == "Punjab";
    TableStatesIntrastate(27, 27);
  }

  lemma UnknownlandShape()
    ensures forall i :: 0 <= i < |StateCodes| ==>
      |StateCodes[i].0| != 11 || StateCodes[i].0[0] != 'U' || StateCodes[i].0[1] != 'n'
  {
  }

  /** A name of eleven letters starting "Un" matches no table entry, even case-folded. */
  lemma NoEntryStartingUn(name: string)
    requires |name| == 11 && name[0] == 'U' && name[1] == 'n' && 'a' <= name[10] <= 'z'
    ensures forall i :: 0 <= i < |StateCodes| ==> ToLowerCase(name) != ToLowerCase(StateCodes[i].0)
  {
    StateNamesShape();
    UnknownlandShape();
    forall i | 0 <= i < |StateCodes|
      ensures ToLowerCase(name) != ToLowerCase(StateCodes[i].0)
    {
      LowerCaseSeparates(name, StateCodes[i].0);
    }
  }

  /** A state that is not in the table is never intrastate with anything. */
  lemma UnknownlandIsInterstate(state: string)
    ensures !IsIntrastate(state, "Unknownland") && !IsIntrastate("Unknownland", state)
  {
    var unknown := "Unknownland";
    assert |unknown| == 11 && unknown[0] == 'U' && unknown[1] == 'n' && unknown[10] == 'd';
    NoEntryStartingUn(unknown);
    TrimUnchanged(unknown);
    GetStateCodeUnknown(unknown);
    UnknownStateIsInterstate(unknown, state);
  }

  /**
   * The slab boundary: a base (at 5%) less the row's discount of exactly 2500.00 takes the
   * 18% slab, 2499.99 the 5% slab, with or without a discount.
   */
  lemma SlabBoundary()
    ensures ChooseSlab(2625.0, 0.0) == HigherSlab
    ensures ChooseSlab(2624.9895, 0.0) == LowerSlab
    ensures ChooseSlab(2730.0, 100.0) == HigherSlab
    ensures ChooseSlab(2729.9895, 100.0) == LowerSlab
  {
  }

  /**
   * Three units of one item with an order discount of 100.00: three rows of quantity 1,
   * the whole discount on the first and none on the other two.
   */
  lemma ThreeUnitsOneDiscount()
    ensures var inv := InvoiceOf(SingleItemOrder("Maharashtra", PlainItem(1000.0, 3, 0.0), 100.0), "");
      && |inv.lineItems| == 3
      && (forall k :: 0 <= k < 3 ==> inv.lineItems[k].quantity == 1)
      && inv.lineItems[0].discount == 100.0
      && inv.lineItems[1].discount == 0.0 && inv.lineItems[2].discount == 0.0
      && inv.totals.discount.None?
  {
    var item := PlainItem(1000.0, 3, 0.0);
    assert UsesOrderDiscount(item, 100.0);
    OneItemTakingPool(SingleItemOrder("Maharashtra", item, 100.0), item, "");
  }

  /** An order of one item that takes the order-level discount: its units, the discount on the first. */
  lemma OneItemTakingPool(order: Order, item: LineItem, companyState: string)
    requires order.lineItems == Some([item]) && UsesOrderDiscount(item, order.currentTotalDiscounts)
    ensures var inv := InvoiceOf(order, companyState);
      && |inv.lineItems| == item.quantity
      && (forall k :: 0 <= k < |inv.lineItems| ==> inv.lineItems[k].quantity == 1)
      && (item.quantity > 0 ==> inv.lineItems[0].discount == order.currentTotalDiscounts)
      && (forall k :: 0 < k < |inv.lineItems| ==> inv.lineItems[k].discount == 0.0)
      && inv.totals.discount.None?
  {
    var intra := OrderIsIntrastate(order, companyState);
    var e := OrderExpansion(order, companyState);
    FirstItemTakesPool(item, order.currentTotalDiscounts, intra);
    ItemRowsUnits(item, order.currentTotalDiscounts, HsnCodeOf(item), intra);
    DiscountLineRule(order, e);
  }

  /**
   * One pool for the whole order, used in item order: of two units priced 3000.00 each as
   * separate items, with an order discount of 400.00, the first takes all of it and the
   * second none.
   */
  lemma PoolUsedInItemOrder()
    ensures var item := PlainItem(3000.0, 1, 0.0);
      var order := Order("INR", "Maharashtra", "", Some([item, item]), 400.0, 0.0, Some(5600.0), None);
      var inv := InvoiceOf(order, "");
      && |inv.lineItems| == 2
      && inv.lineItems[0].discount == 400.0
      && inv.lineItems[1].discount == 0.0
      && inv.totals.discount.None?
      && inv.totals.total == Some(5600.0)
  {
    var item := PlainItem(3000.0, 1, 0.0);
    assert UsesOrderDiscount(item, 400.0);
    SameItemTwiceTakingPool(Order("INR", "Maharashtra", "", Some([item, item]), 400.0, 0.0, Some(5600.0), None), item, "");
  }

  /** An order of one single-unit item twice, taking the order-level discount: the first gets all of it. */
  lemma SameItemTwiceTakingPool(order: Order, item: LineItem, companyState: string)
    requires order.lineItems == Some([item, item]) && item.quantity == 1
    requires UsesOrderDiscount(item, order.currentTotalDiscounts)
    ensures var inv := InvoiceOf(order, companyState);
      && |inv.lineItems| == 2
      && inv.lineItems[0].discount == order.currentTotalDiscounts
      && inv.lineItems[1].discount == 0.0
      && inv.totals.discount.None?
  {
    var e := OrderExpansion(order, companyState);
    SameUnitTwice(item, order.currentTotalDiscounts, OrderIsIntrastate(order, companyState));
    DiscountLineRule(order, e);
  }

  /** The sample order priced in US dollars: its subtotal as the source computes it is NaN. */
  lemma DollarOrderSubtotal()
    ensures var order := SingleItemOrder("Maharashtra", PlainItem(2590.0, 1, 0.0), 400.0).(currency := "USD");
      var inv := InvoiceOf(order, "");
      && inv.currencySymbol == "USD"
      && AsWrittenSubtotal(inv.currencySymbol, inv.lineItems).NaN?
  {
    var order := SingleItemOrder("Maharashtra", PlainItem(2590.0, 1, 0.0), 400.0).(currency := "USD");
    var usd := "USD";
    assert usd[0] == 'U' && usd[1] == 'S' && usd[2] == 'D';
    assert IsCurrencyCode(order.currency);
    assert LineItemsOf(order)[..0] == [];
    assert TotalQuantity(LineItemsOf(order)) == 1;
    ForeignSubtotalAsWritten(order, "");
  }

  lemma DigitsOf2590()
    ensures NatDigits(2590) == "2590"
  {
    assert NatDigits(2) == "2";
    assert NatDigits(25) == "25";
    assert NatDigits(259) == "259";
  }

  lemma DigitsOf2066()
    ensures NatDigits(2066) == "2066"
  {
    assert NatDigits(2) == "2";
    assert NatDigits(20) == "20";
    assert NatDigits(206) == "206";
  }

  /** The sample row's MRP as displayed: "Rs. 2590.00". */
  lemma SampleMrpText()
    ensures AmountText("Rs.", 2590.0) == "Rs. 2590.00"
  {
    assert Hundredths(2590.0) == 259000;
    assert 259000 / 100 == 2590 && 259000 % 100 == 0;
    DigitsOf2590();
    assert DigitChar(0) == '0';
    assert HundredthsText(259000) == "2590.00";
  }

  lemma TextOf206667()
    ensures HundredthsText(206667) == "2066.67"
  {
    assert 206667 / 100 == 2066 && 206667 % 100 == 67 && 67 / 10 == 6 && 67 % 10 == 7;
    DigitsOf2066();
    assert DigitChar(6) == '6' && DigitChar(7) == '7';
  }

  /** The sample row's pre-tax price after the discount as displayed: "Rs. 2066.67". */
  lemma SampleSellingPriceText()
    ensures AmountText("Rs.", 2590.0 / 1.05 - 400.0) == "Rs. 2066.67"
  {
    var x := 2590.0 / 1.05 - 400.0;
    assert Abs(x) == x;
    assert Hundredths(x) == 206667;
    TextOf206667();
  }
}
