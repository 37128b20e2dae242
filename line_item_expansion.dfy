/**
 * The traversal of the line items (transformers/shopifyOrderTransformer.mjs, lines 17-113):
 * one order-level discount pool is carried from item to item, each item takes its
 * discount, draws on the pool, and expands into one row per unit. `ExpandItems` is the
 * traversal's meaning, item by item in order; the transformer's loop is proved against it.
 */
module LineItemExpansion {
  import opened ShopifyOrder
  import opened HsnCode
  import opened InvoiceRows

  /** What the traversal has built so far: the rows, `remainingOrderDiscount`, `discountAppliedInLineItems`. */
  datatype Expansion = Expansion(rows: seq<Row>, remainingOrderDiscount: real, discountAppliedInLineItems: bool)

  /** Line 62: an item's discount is taken from the pool when it is positive and there is an order discount. */
  predicate DrawsOnPool(discountToUse: real, totalOrderDiscount: real)
  {
    discountToUse > 0.0 && totalOrderDiscount > 0.0
  }

  /** The traversal's step for one item. */
  function ExpandItem(e: Expansion, item: LineItem, totalOrderDiscount: real, isIntrastateTxn: bool)
    : (next: Expansion)
    ensures next.remainingOrderDiscount <= e.remainingOrderDiscount
    ensures next.remainingOrderDiscount < e.remainingOrderDiscount
        <==> DrawsOnPool(DiscountToUse(item, totalOrderDiscount, e.remainingOrderDiscount), totalOrderDiscount)
    ensures next.discountAppliedInLineItems
        == (e.discountAppliedInLineItems || next.remainingOrderDiscount < e.remainingOrderDiscount)
    ensures |next.rows| == |e.rows| + item.quantity && next.rows[..|e.rows|] == e.rows
  {
    var discountToUse := DiscountToUse(item, totalOrderDiscount, e.remainingOrderDiscount);
    var draws := DrawsOnPool(discountToUse, totalOrderDiscount);
    Expansion(
      e.rows + ItemRows(item, discountToUse, HsnCodeOf(item), isIntrastateTxn),
      if draws then e.remainingOrderDiscount - discountToUse else e.remainingOrderDiscount,
      e.discountAppliedInLineItems || draws)
  }

  /** The traversal of `items` in order, starting from no rows, the full pool and no discount applied. */
  function ExpandItems(items: seq<LineItem>, totalOrderDiscount: real, isIntrastateTxn: bool): Expansion
    decreases |items|
  {
    if items == [] then Expansion([], totalOrderDiscount, false)
    else ExpandItem(ExpandItems(items[..|items| - 1], totalOrderDiscount, isIntrastateTxn),
                    items[|items| - 1], totalOrderDiscount, isIntrastateTxn)
  }

  /** The first item, when it takes the order-level discount, takes all of it, on its first unit. */
  lemma FirstItemTakesPool(item: LineItem, totalOrderDiscount: real, isIntrastateTxn: bool)
    requires UsesOrderDiscount(item, totalOrderDiscount)
    ensures ExpandItems([item], totalOrderDiscount, isIntrastateTxn)
         == Expansion(ItemRows(item, totalOrderDiscount, HsnCodeOf(item), isIntrastateTxn), 0.0, true)
  {
    var none: seq<LineItem> := [];
    assert [item][..0] == none;
    assert DiscountToUse(item, totalOrderDiscount, totalOrderDiscount) == totalOrderDiscount;
    assert ExpandItems([item], totalOrderDiscount, isIntrastateTxn)
        == ExpandItem(Expansion([], totalOrderDiscount, false), item, totalOrderDiscount, isIntrastateTxn);
    assert [] + ItemRows(item, totalOrderDiscount, HsnCodeOf(item), isIntrastateTxn)
        == ItemRows(item, totalOrderDiscount, HsnCodeOf(item), isIntrastateTxn);
  }

  /** Once the pool is empty, an item that would take the order-level discount gets none. */
  lemma EmptyPoolGivesNothing(items: seq<LineItem>, item: LineItem, totalOrderDiscount: real, isIntrastateTxn: bool)
    requires UsesOrderDiscount(item, totalOrderDiscount)
    requires ExpandItems(items, totalOrderDiscount, isIntrastateTxn).remainingOrderDiscount == 0.0
    ensures var e := ExpandItems(items, totalOrderDiscount, isIntrastateTxn);
      ExpandItems(items + [item], totalOrderDiscount, isIntrastateTxn)
        == e.(rows := e.rows + ItemRows(item, 0.0, HsnCodeOf(item), isIntrastateTxn))
  {
    assert (items + [item])[..|items|] == items;
  }

  /** The same single unit twice, taking the order-level discount: the first row gets all of it, the second none. */
  lemma SameUnitTwice(item: LineItem, totalOrderDiscount: real, isIntrastateTxn: bool)
    requires UsesOrderDiscount(item, totalOrderDiscount) && item.quantity == 1
    ensures var e := ExpandItems([item, item], totalOrderDiscount, isIntrastateTxn);
      && |e.rows| == 2 && e.rows[0].discount == totalOrderDiscount && e.rows[1].discount == 0.0
      && e.discountAppliedInLineItems
  {
    FirstItemTakesPool(item, totalOrderDiscount, isIntrastateTxn);
    EmptyPoolGivesNothing([item], item, totalOrderDiscount, isIntrastateTxn);
    assert [item] + [item] == [item, item];
    var first := ItemRows(item, totalOrderDiscount, HsnCodeOf(item), isIntrastateTxn);
    var second := ItemRows(item, 0.0, HsnCodeOf(item), isIntrastateTxn);
    assert first[0] == UnitRow(item, 0, totalOrderDiscount, HsnCodeOf(item), isIntrastateTxn);
    assert second[0] == UnitRow(item, 0, 0.0, HsnCodeOf(item), isIntrastateTxn);
    assert (first + second)[0] == first[0] && (first + second)[1] == second[0];
  }

  /** The sum of the items' quantities. */
  function TotalQuantity(items: seq<LineItem>): nat
    decreases |items|
  {
    if items == [] then 0 else TotalQuantity(items[..|items| - 1]) + items[|items| - 1].quantity
  }

  /** The traversal produces one row per unit: as many rows as the quantities add up to. */
  lemma {:induction false} RowCountIsTotalQuantity(items: seq<LineItem>, totalOrderDiscount: real, isIntrastateTxn: bool)
    ensures |ExpandItems(items, totalOrderDiscount, isIntrastateTxn).rows| == TotalQuantity(items)
    decreases |items|
  {
    if items != [] {
      RowCountIsTotalQuantity(items[..|items| - 1], totalOrderDiscount, isIntrastateTxn);
    }
  }

  /** The pool never grows: after all the items it holds at most what it held after any prefix of them. */
  lemma {:induction false} PoolNeverIncreases(items: seq<LineItem>, i: nat, totalOrderDiscount: real, isIntrastateTxn: bool)
    requires i <= |items|
    ensures ExpandItems(items, totalOrderDiscount, isIntrastateTxn).remainingOrderDiscount
         <= ExpandItems(items[..i], totalOrderDiscount, isIntrastateTxn).remainingOrderDiscount
    decreases |items|
  {
    if i == |items| {
      assert items[..i] == items;
    } else {
      var prefix := items[..|items| - 1];
      PoolNeverIncreases(prefix, i, totalOrderDiscount, isIntrastateTxn);
      assert prefix[..i] == items[..i];
    }
  }

  /**
   * The discount counts as applied in the rows exactly when the pool has been drawn on,
   * that is, when less than the order discount remains.
   */
  lemma {:induction false} AppliedIffPoolDrawn(items: seq<LineItem>, totalOrderDiscount: real, isIntrastateTxn: bool)
    ensures var e := ExpandItems(items, totalOrderDiscount, isIntrastateTxn);
      && e.remainingOrderDiscount <= totalOrderDiscount
      && (e.discountAppliedInLineItems <==> e.remainingOrderDiscount < totalOrderDiscount)
    decreases |items|
  {
    if items != [] {
      AppliedIffPoolDrawn(items[..|items| - 1], totalOrderDiscount, isIntrastateTxn);
    }
  }

  /** Without a positive order discount the pool is never drawn on. */
  lemma {:induction false} NoOrderDiscountNoDraw(items: seq<LineItem>, totalOrderDiscount: real, isIntrastateTxn: bool)
    requires totalOrderDiscount <= 0.0
    ensures ExpandItems(items, totalOrderDiscount, isIntrastateTxn).remainingOrderDiscount == totalOrderDiscount
    ensures !ExpandItems(items, totalOrderDiscount, isIntrastateTxn).discountAppliedInLineItems
    decreases |items|
  {
    if items != [] {
      NoOrderDiscountNoDraw(items[..|items| - 1], totalOrderDiscount, isIntrastateTxn);
    }
  }

  /** One step keeps every row a split unit row. */
  lemma ExpandItemSplitsTax(e: Expansion, item: LineItem, totalOrderDiscount: real, isIntrastateTxn: bool)
    requires AllSplitUnitRows(e.rows, isIntrastateTxn)
    ensures AllSplitUnitRows(ExpandItem(e, item, totalOrderDiscount, isIntrastateTxn).rows, isIntrastateTxn)
  {
    var d := DiscountToUse(item, totalOrderDiscount, e.remainingOrderDiscount);
    var added := ItemRows(item, d, HsnCodeOf(item), isIntrastateTxn);
    ItemRowsSplit(item, d, HsnCodeOf(item), isIntrastateTxn);
    var rows := e.rows + added;
    assert ExpandItem(e, item, totalOrderDiscount, isIntrastateTxn).rows == rows;
    forall k | 0 <= k < |rows| ensures SplitUnitRow(rows[k], isIntrastateTxn) {
      if k >= |e.rows| {
        assert rows[k] == added[k - |e.rows|];
      }
    }
  }

  /** Every row has quantity 1 and splits its tax into CGST, SGST and IGST under the one regime of the order. */
  lemma {:induction false} RowsSplitTax(items: seq<LineItem>, totalOrderDiscount: real, isIntrastateTxn: bool)
    ensures AllSplitUnitRows(ExpandItems(items, totalOrderDiscount, isIntrastateTxn).rows, isIntrastateTxn)
    decreases |items|
  {
    if items != [] {
      var prefix := items[..|items| - 1];
      RowsSplitTax(prefix, totalOrderDiscount, isIntrastateTxn);
      ExpandItemSplitsTax(ExpandItems(prefix, totalOrderDiscount, isIntrastateTxn), items[|items| - 1],
                          totalOrderDiscount, isIntrastateTxn);
    }
  }

  /** With no negative prices, no row carries a negative tax. */
  lemma {:induction false} RowsTaxNonNegative(items: seq<LineItem>, totalOrderDiscount: real, isIntrastateTxn: bool)
    requires forall k :: 0 <= k < |items| ==> items[k].price >= 0.0
    ensures AllTaxNonNegative(ExpandItems(items, totalOrderDiscount, isIntrastateTxn).rows)
    decreases |items|
  {
    if items != [] {
      var prefix := items[..|items| - 1];
      var item := items[|items| - 1];
      RowsTaxNonNegative(prefix, totalOrderDiscount, isIntrastateTxn);
      var e := ExpandItems(prefix, totalOrderDiscount, isIntrastateTxn);
      var d := DiscountToUse(item, totalOrderDiscount, e.remainingOrderDiscount);
      var added := ItemRows(item, d, HsnCodeOf(item), isIntrastateTxn);
      ItemRowsTaxNonNegative(item, d, HsnCodeOf(item), isIntrastateTxn);
      var rows := e.rows + added;
      assert ExpandItems(items, totalOrderDiscount, isIntrastateTxn).rows == rows;
      forall k | 0 <= k < |rows| ensures rows[k].tax >= 0.0 {
        if k >= |e.rows| {
          assert rows[k] == added[k - |e.rows|];
        }
      }
    }
  }

  /**
   * When there is an order discount and every item has at least one unit, the discounts
   * shown on the rows add up to exactly what the pool lost.
   */
  lemma {:induction false} RowDiscountsMatchPoolDraws(items: seq<LineItem>, totalOrderDiscount: real, isIntrastateTxn: bool)
    requires totalOrderDiscount > 0.0
    requires forall k :: 0 <= k < |items| ==> items[k].quantity > 0
    ensures var e := ExpandItems(items, totalOrderDiscount, isIntrastateTxn);
      SumOf(e.rows, RowDiscount) == totalOrderDiscount - e.remainingOrderDiscount
    decreases |items|
  {
    if items != [] {
      var prefix := items[..|items| - 1];
      var item := items[|items| - 1];
      var e := ExpandItems(prefix, totalOrderDiscount, isIntrastateTxn);
      RowDiscountsMatchPoolDraws(prefix, totalOrderDiscount, isIntrastateTxn);
      var d := DiscountToUse(item, totalOrderDiscount, e.remainingOrderDiscount);
      SumOfConcat(e.rows, ItemRows(item, d, HsnCodeOf(item), isIntrastateTxn), RowDiscount);
      ItemRowsDiscountSum(item, d, HsnCodeOf(item), isIntrastateTxn);
    }
  }

  /**
   * The part of the pool handed to items that take the order-level discount (rather than
   * their own): the sum of their positive allocations.
   */
  function OrderDiscountAllocated(items: seq<LineItem>, totalOrderDiscount: real, isIntrastateTxn: bool): real
    decreases |items|
  {
    if items == [] then 0.0
    else
      var prefix := items[..|items| - 1];
      var item := items[|items| - 1];
      var remaining := ExpandItems(prefix, totalOrderDiscount, isIntrastateTxn).remainingOrderDiscount;
      var d := DiscountToUse(item, totalOrderDiscount, remaining);
      OrderDiscountAllocated(prefix, totalOrderDiscount, isIntrastateTxn)
        + if UsesOrderDiscount(item, totalOrderDiscount) && d > 0.0 then d else 0.0
  }

  /**
   * The order-level discount is never handed out more than once: what the items taking it
   * receive, together with what is left of the pool (if anything), is at most the order discount.
   */
  lemma {:induction false} OrderDiscountAllocatedAtMostOnce(items: seq<LineItem>, totalOrderDiscount: real, isIntrastateTxn: bool)
    requires totalOrderDiscount > 0.0
    ensures var remaining := ExpandItems(items, totalOrderDiscount, isIntrastateTxn).remainingOrderDiscount;
      OrderDiscountAllocated(items, totalOrderDiscount, isIntrastateTxn)
        + (if remaining > 0.0 then remaining else 0.0) <= totalOrderDiscount
    ensures 0.0 <= OrderDiscountAllocated(items, totalOrderDiscount, isIntrastateTxn) <= totalOrderDiscount
    decreases |items|
  {
    if items != [] {
      OrderDiscountAllocatedAtMostOnce(items[..|items| - 1], totalOrderDiscount, isIntrastateTxn);
    }
  }
}
