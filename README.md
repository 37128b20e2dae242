# GST invoice core of the Shopify invoice service

This project models the part of the Shopify invoice Lambda that turns a Shopify order
into the tax lines of a GST invoice. It covers two source files.

- `utils/gstUtils.mjs`:
  - the table of Indian state codes;
  - `getStateCode`: exact lookup, then a trimmed, case-insensitive one, else `"00"`;
  - `isIntrastate`;
  - `calculateGSTBreakdown`: CGST and SGST halves, or IGST.
- `transformers/shopifyOrderTransformer.mjs`, its `transformShopifyOrderToInvoice`:
  - the seller state (`COMPANY_STATE`, default Punjab) against the buyer state;
  - one order-level discount pool that the line items draw on, in order;
  - the HSN code of each item, looked up by priority;
  - the expansion of each item into one row per unit, where only the first unit carries the discount;
  - the 5% / 18% slab, chosen on the 5% base less the discount against 2500;
  - the totals.

Modules:

| file | module | models |
|---|---|---|
| `wrappers.dfy` | `Wrappers` | `Option` |
| `js_builtins.dfy` | `JsBuiltins` | `toLowerCase`, `trim`, `includes`, `Array.prototype.find`, `replace`, and the regular-expression class `\d` |
| `js_numbers.dfy` | `JsNumbers` | Numbers as reals, infinities and NaN; `toFixed(2)`; `parseFloat` |
| `gst_utils.dfy` | `GstUtils` | `gstUtils.mjs` |
| `shopify_order.dfy` | `ShopifyOrder` | the order fields the transformation reads, after defaulting; seller and buyer state |
| `hsn_code.dfy` | `HsnCode` | the three HSN sources and the row name |
| `invoice_rows.dfy` | `InvoiceRows` | slab choice, discount choice, one unit row, row sums |
| `line_item_expansion.dfy` | `LineItemExpansion` | the pass over the line items (`ExpandItems`, a left fold) and its pool invariants |
| `invoice_totals.dfy` | `InvoiceTotals` | the totals block, and the subtotal's text read-back as the source writes it |
| `order_transformer.dfy` | `ShopifyOrderTransformer` | the transformation: `InvoiceOf`, and the method with the loop, proved equal to it |
| `invoice_scenarios.dfy` | `InvoiceScenarios` | concrete orders worked through the model |

Amounts are exact reals and the source's numeric constants are kept as they are: 1.05, 1.18, 0.05, 0.18 and 2500. An absent or falsy string field is `""`.

Two facts of the code that the model keeps:
- The state table has 36 entries.
- An order without `line_items` gives no rows: the source writes `?.flatMap(...) || []`.

## Model

| member | source | states |
|---|---|---|
| GstUtils.StateNamesDistinct | utils/gstUtils.mjs:6-43 | no state name appears twice in the table |
| GstUtils.StateCodesDistinct | utils/gstUtils.mjs:6-43 | no two states share a code |
| GstUtils.StateCodesAreTwoDigits | utils/gstUtils.mjs:6-43 | every code is two ASCII digits and none is the unknown code "00" |
| GstUtils.StateNamesDistinctIgnoringCase | utils/gstUtils.mjs:58-64 | no two names are equal after lower-casing, so the case-insensitive scan can match at most one entry |
| GstUtils.GetStateCode | utils/gstUtils.mjs:50-67 | an empty name gives "00"; every result is "00" or a code from the table |
| GstUtils.GetStateCodeOfTableName | utils/gstUtils.mjs:54-55 | a name exactly as in the table gets that entry's code |
| GstUtils.GetStateCodeMatches | utils/gstUtils.mjs:50-67 | for a non-empty name, the result is entry i's code if and only if the trimmed, lower-cased name equals entry i's lower-cased name |
| GstUtils.GetStateCodeUnknown | utils/gstUtils.mjs:50-67 | the result is "00" if and only if the name is empty or matches no entry after trimming and lower-casing |
| GstUtils.IsIntrastate | utils/gstUtils.mjs:75-82 | intrastate only for two non-empty names, whose seller code is known |
| GstUtils.IsIntrastateSameEntry | utils/gstUtils.mjs:75-82 | intrastate if and only if both names are non-empty and match the same table entry, trimmed and case-folded |
| GstUtils.IsIntrastateSymmetric | utils/gstUtils.mjs:75-82 | swapping seller and buyer does not change the answer |
| GstUtils.IsIntrastateWithItself | utils/gstUtils.mjs:75-82 | a state with a known code is intrastate with itself |
| GstUtils.TableStateIsIntrastateWithItself | utils/gstUtils.mjs:75-82 | every state of the table is intrastate with itself |
| GstUtils.TableStatesIntrastate | utils/gstUtils.mjs:75-82 | two table names are intrastate if and only if they are the same entry |
| GstUtils.UnknownStateIsInterstate | utils/gstUtils.mjs:81 | a state with code "00" is interstate with any state, either way round |
| GstUtils.CalculateGstBreakdown | utils/gstUtils.mjs:90-110 | the three parts add up to the tax; intrastate gives equal CGST and SGST and no IGST; interstate gives only IGST |
| JsBuiltins.ToLowerCase | utils/gstUtils.mjs:61 | same length, each character lower-cased on its own |
| JsBuiltins.Trim | utils/gstUtils.mjs:59 | the result is a slice of the input with only white space cut off either end, and it neither starts nor ends with white space |
| JsBuiltins.TrimStart | utils/gstUtils.mjs:59 | the result is a suffix, what was removed is all white space, and the result does not start with white space |
| JsBuiltins.TrimEnd | utils/gstUtils.mjs:59 | the result is a prefix, what was removed is all white space, and the result does not end with white space |
| JsBuiltins.FindIndex | transformers/shopifyOrderTransformer.mjs:34-36 | `find` locates the first element satisfying the predicate, and finds none only when no element does |
| JsBuiltins.FirstOccurrence | transformers/shopifyOrderTransformer.mjs:125 | the first index at which the pattern occurs, or none when it occurs nowhere |
| JsBuiltins.RemoveAll | transformers/shopifyOrderTransformer.mjs:125 | no removed character remains, text without one is unchanged, and a single character is dropped exactly when it is the removed one |
| JsBuiltins.RemoveAllConcat | transformers/shopifyOrderTransformer.mjs:125 | removing a character from a concatenation removes it from each part; with the single-character case this fixes the result on every input |
| JsBuiltins.ReplaceFirst | transformers/shopifyOrderTransformer.mjs:125 | text in which the pattern does not occur is unchanged; otherwise the first occurrence, and only it, is replaced |
| JsBuiltins.Includes | transformers/shopifyOrderTransformer.mjs:43 | the empty pattern is always included, and a pattern is included exactly when a first occurrence exists |
| JsNumbers.Add | transformers/shopifyOrderTransformer.mjs:125-126 | `+` on numbers: two finite numbers add exactly, NaN on either side gives NaN, and an infinite sum needs an infinite operand |
| JsNumbers.ParseFloat | transformers/shopifyOrderTransformer.mjs:125-126 | no contract of its own: `ParseFixedRoundTrip` states that it inverts `toFixed(2)`, and `InvoiceTotals.CapitalTextIsNaN` that text starting with two capital letters, or made of one capital letter, gives NaN |
| JsNumbers.ToFixed2 | transformers/shopifyOrderTransformer.mjs:104 | the text starts with "-" or a digit and holds only digits, "." and "-" |
| JsNumbers.Round2 | transformers/shopifyOrderTransformer.mjs:125 | `parseFloat(x.toFixed(2))` is within half a hundredth of x and keeps its sign |
| JsNumbers.ParseFixedRoundTrip | transformers/shopifyOrderTransformer.mjs:124-127 | `parseFloat` of the `toFixed(2)` text gives the amount rounded to hundredths: the read-back inverts the formatting |
| JsNumbers.ParseFixed2Text | transformers/shopifyOrderTransformer.mjs:124-127 | the two-decimal text of n hundredths, with or without a leading "-", parses back as plus or minus n/100 |
| JsNumbers.ParseHundredthsText | transformers/shopifyOrderTransformer.mjs:125 | the two-decimal text of n hundredths starts with a digit and its decimal literal denotes n/100 |
| JsNumbers.ParseFloatOfDigitText | transformers/shopifyOrderTransformer.mjs:125 | text that starts with a digit parses as its leading decimal literal, and negated with a "-" in front |
| JsNumbers.ParseSignedDigitText | transformers/shopifyOrderTransformer.mjs:125 | the same for both signs at once: the sign read by `parseFloat` is the sign of the result |
| JsNumbers.PointLiteral | transformers/shopifyOrderTransformer.mjs:125 | digits, a point and digits up to the end form a literal with exactly that whole part, that fraction and no exponent |
| JsNumbers.DigitsValueOfNatDigits | transformers/shopifyOrderTransformer.mjs:104 | reading back the decimal digits of n gives n |
| ShopifyOrder.CurrencySymbol | transformers/shopifyOrderTransformer.mjs:10 | INR is shown as "Rs."; any other currency is shown as its own code |
| ShopifyOrder.SellerState | transformers/shopifyOrderTransformer.mjs:13 | the configured state when it is set, otherwise Punjab; never empty |
| ShopifyOrder.BuyerState | transformers/shopifyOrderTransformer.mjs:14 | the shipping province, else the billing province; empty only when both are |
| HsnCode.FirstSkuMatch | transformers/shopifyOrderTransformer.mjs:50 | the leftmost index where `HSN` (any case) is followed by at least four digits |
| HsnCode.SkuCapture | transformers/shopifyOrderTransformer.mjs:50-51 | the captured group is the 4 to 8 digits after the match, taken greedily |
| HsnCode.SkuHsnCode | transformers/shopifyOrderTransformer.mjs:49-52 | no code if and only if the pattern matches nowhere; otherwise the capture at the leftmost match |
| HsnCode.HsnCodeOf | transformers/shopifyOrderTransformer.mjs:30-52 | the code comes from one of the three sources; `MetafieldWins`, `PropertyIsSecond`, `SkuIsLast` and `NoHsnCode` state their priority |
| HsnCode.MetafieldWins | transformers/shopifyOrderTransformer.mjs:33-38 | the first `custom.hsn_code` metafield, when its value is non-empty, gives the code |
| HsnCode.PropertyIsSecond | transformers/shopifyOrderTransformer.mjs:41-46 | without a metafield code, the first property named with "hsn" (any case) gives the code |
| HsnCode.SkuIsLast | transformers/shopifyOrderTransformer.mjs:49-52 | with neither, the SKU's leftmost match gives the code |
| HsnCode.NoHsnCode | transformers/shopifyOrderTransformer.mjs:30-52 | the code is empty if and only if no source offers one |
| HsnCode.ItemName | transformers/shopifyOrderTransformer.mjs:94 | the title when it is non-empty, otherwise the name; empty only when both are |
| HsnCode.NameWithHsn | transformers/shopifyOrderTransformer.mjs:94-95 | the row name starts with the title (or name) and has the " (HSN: code)" suffix exactly when there is a code |
| InvoiceRows.ChooseSlab | transformers/shopifyOrderTransformer.mjs:71-84 | the slab is 5% or 18%; it is 18% exactly when the price taken back at 5%, less the row's discount, is at least 2500; its divisor is one plus its rate |
| InvoiceRows.Mrp | transformers/shopifyOrderTransformer.mjs:27 | the compare-at price when there is one, otherwise the selling price |
| InvoiceRows.DiscountToUse | transformers/shopifyOrderTransformer.mjs:56-59 | from the pool, at most the order discount and at most what remains of it; otherwise the item's own discount |
| InvoiceRows.UnitRow | transformers/shopifyOrderTransformer.mjs:68-111 | quantity 1; the discount only on unit 0 and only when positive; the slab rate is 18% exactly when price/1.05 less the row discount is at least 2500; base plus tax is the GST-inclusive price; price after tax is the price less the discount; CGST+SGST+IGST is the tax, split by regime |
| InvoiceRows.ItemRows | transformers/shopifyOrderTransformer.mjs:68-112 | no contract of its own: `ItemRowsUnits`, `ItemRowsSplit`, `ItemRowsTaxNonNegative` and `ItemRowsDiscountSum` state what the rows of one item are |
| InvoiceRows.ItemRowsUnits | transformers/shopifyOrderTransformer.mjs:68-69 | an item gives as many rows as its quantity, all of quantity 1, and only the first carries the discount |
| InvoiceRows.ItemRowsSplit | transformers/shopifyOrderTransformer.mjs:86-110 | every row of an item splits its tax into CGST, SGST and IGST under the order's regime |
| InvoiceRows.UnitRowTaxNonNegative | transformers/shopifyOrderTransformer.mjs:80-86 | a non-negative price gives a non-negative tax, whatever the discount |
| InvoiceRows.SumOf | transformers/shopifyOrderTransformer.mjs:116-127 | no contract of its own: `SumOfConcat` makes it additive over concatenation and `SumOfSplit` relates the tax sums |
| InvoiceRows.SumOfSplit | transformers/shopifyOrderTransformer.mjs:116-121 | over split rows the CGST, SGST and IGST sums add up to the tax sum |
| InvoiceRows.ItemRowsDiscountSum | transformers/shopifyOrderTransformer.mjs:68-69 | an item's rows show in total its discount, when positive and there is a unit, and nothing otherwise |
| LineItemExpansion.ExpandItem | transformers/shopifyOrderTransformer.mjs:54-112 | one item: the pool never grows and shrinks exactly when the item draws on it; the applied flag records a draw; the earlier rows are kept and the item adds one per unit |
| LineItemExpansion.ExpandItems | transformers/shopifyOrderTransformer.mjs:23-113 | no contract of its own: `RowCountIsTotalQuantity`, `PoolNeverIncreases`, `AppliedIffPoolDrawn`, `NoOrderDiscountNoDraw`, `RowsSplitTax`, `RowDiscountsMatchPoolDraws` and `OrderDiscountAllocatedAtMostOnce` state what the pass computes |
| LineItemExpansion.RowCountIsTotalQuantity | transformers/shopifyOrderTransformer.mjs:23-68 | the pass emits as many rows as the quantities add up to |
| LineItemExpansion.PoolNeverIncreases | transformers/shopifyOrderTransformer.mjs:61-65 | after all the items the pool holds at most what it held after any prefix of them |
| LineItemExpansion.FirstItemTakesPool | transformers/shopifyOrderTransformer.mjs:56-65 | a first item that takes the order discount takes all of it, leaves the pool empty and marks the discount applied |
| LineItemExpansion.EmptyPoolGivesNothing | transformers/shopifyOrderTransformer.mjs:56-65 | once the pool is empty, an item that would draw on it gets a discount of zero and nothing else changes |
| LineItemExpansion.SameUnitTwice | transformers/shopifyOrderTransformer.mjs:56-69 | the same single unit twice: the first row shows the whole order discount, the second none |
| LineItemExpansion.AppliedIffPoolDrawn | transformers/shopifyOrderTransformer.mjs:19-65 | the pool never exceeds the order discount, and the discount counts as applied if and only if the pool lost something |
| LineItemExpansion.NoOrderDiscountNoDraw | transformers/shopifyOrderTransformer.mjs:57-65 | without a positive order discount the pool is untouched and nothing is marked applied |
| LineItemExpansion.RowsSplitTax | transformers/shopifyOrderTransformer.mjs:86-110 | every row of the order has quantity 1 and splits its tax by the one regime of the order |
| LineItemExpansion.RowsTaxNonNegative | transformers/shopifyOrderTransformer.mjs:80-86 | with no negative prices no row has a negative tax |
| LineItemExpansion.RowDiscountsMatchPoolDraws | transformers/shopifyOrderTransformer.mjs:54-69 | with an order discount and no zero-quantity item, the row discounts add up to exactly what the pool lost |
| LineItemExpansion.OrderDiscountAllocatedAtMostOnce | transformers/shopifyOrderTransformer.mjs:54-65 | what the pool hands out to the items that take it, plus what is left, is at most the order discount |
| InvoiceTotals.ComputeTotals | transformers/shopifyOrderTransformer.mjs:115-163 | no contract of its own: `DiscountLineRule`, `TotalsSplitTax`, `ShownComponentsAddUp`, `SubtotalReadsRowPrices` and `ShopifyOrderTransformer.TotalsCopiedFromOrder` state what the totals are |
| InvoiceTotals.ShownIfPositive | transformers/shopifyOrderTransformer.mjs:159-161 | a GST total line is shown exactly when positive, and then with its amount |
| InvoiceTotals.GrandTotal | transformers/shopifyOrderTransformer.mjs:162 | the current total price, else the total price, taken from the order; absent only when both are |
| InvoiceTotals.DiscountLineRule | transformers/shopifyOrderTransformer.mjs:153-156 | the discount line appears if and only if the discount did not go into the rows and is positive, and then it is the order discount |
| InvoiceTotals.TotalsSplitTax | transformers/shopifyOrderTransformer.mjs:115-121 | the CGST, SGST and IGST totals add up to the tax total; interstate shows neither CGST nor SGST; intrastate shows no IGST and equal CGST and SGST |
| InvoiceTotals.ShownComponentsAddUp | transformers/shopifyOrderTransformer.mjs:158-161 | with non-negative taxes, the GST lines shown add up to the tax shown, an absent line counting as zero |
| InvoiceTotals.SubtotalNearPreTaxSum | transformers/shopifyOrderTransformer.mjs:123-127 | the subtotal is within half a hundredth per row of the exact sum of the pre-tax prices |
| InvoiceTotals.SubtotalReadsRowPrices | transformers/shopifyOrderTransformer.mjs:123-127 | the subtotal equals the sum of the numbers displayed as the rows' pre-tax prices, in any currency |
| InvoiceTotals.SellingPriceReadBack | transformers/shopifyOrderTransformer.mjs:125 | no contract of its own: `RupeeReadBack` and `ForeignReadBack` state what the read-back gives in rupees and in other currencies |
| InvoiceTotals.AsWrittenSubtotal | transformers/shopifyOrderTransformer.mjs:124-127 | no contract of its own: `AsWrittenSubtotalInRupees` and `ForeignCurrencySubtotalIsNaN` state the source's subtotal in rupees and in other currencies |
| InvoiceTotals.RupeeReadBack | transformers/shopifyOrderTransformer.mjs:125 | in rupees a row's displayed price reads back as the rounded price |
| InvoiceTotals.AsWrittenSubtotalInRupees | transformers/shopifyOrderTransformer.mjs:124-127 | in rupees the source's subtotal is the sum of the rounded row prices |
| InvoiceTotals.ForeignReadBack | transformers/shopifyOrderTransformer.mjs:125 | under a three-letter currency code a row's displayed price reads back as NaN |
| InvoiceTotals.CapitalTextIsNaN | transformers/shopifyOrderTransformer.mjs:125 | `parseFloat` of text starting with two capital letters, or made of one, is NaN |
| InvoiceTotals.ForeignCurrencySubtotalIsNaN | transformers/shopifyOrderTransformer.mjs:124-127 | the source's subtotal is NaN for every non-empty order in a currency other than INR |
| ShopifyOrderTransformer.InvoiceOf | transformers/shopifyOrderTransformer.mjs:8-164 | no contract of its own: `InvoiceRowCount`, `InvoiceTaxSplit`, `ShownGstAddsUp`, `DiscountShownOnce`, `NoDiscountLineWithoutOrderDiscount` and `TotalsCopiedFromOrder` state what the invoice is |
| ShopifyOrderTransformer.ExtractHsnCode | transformers/shopifyOrderTransformer.mjs:30-52 | the step-by-step lookup yields the item's HSN code as `HsnCodeOf` defines it |
| ShopifyOrderTransformer.ExpandLineItems | transformers/shopifyOrderTransformer.mjs:17-113 | the loop over the items yields the rows, the remaining pool and the applied flag of `ExpandItems` |
| ShopifyOrderTransformer.TransformShopifyOrderToInvoice | transformers/shopifyOrderTransformer.mjs:8-163 | the transformation yields `InvoiceOf(order, companyState)` |
| ShopifyOrderTransformer.RegimeFollowsShippingProvince | transformers/shopifyOrderTransformer.mjs:13-15 | the regime is decided against the shipping province when there is one, else against the billing province, and against Punjab when no seller state is set |
| ShopifyOrderTransformer.InvoiceRowCount | transformers/shopifyOrderTransformer.mjs:23-113 | the invoice has one row per unit, and none when the order has no line items |
| ShopifyOrderTransformer.InvoiceTaxSplit | transformers/shopifyOrderTransformer.mjs:115-121 | every row and the totals split the tax by the order's regime, and the component sums add up to the tax total |
| ShopifyOrderTransformer.ShownGstAddsUp | transformers/shopifyOrderTransformer.mjs:158-161 | with no negative prices the tax total is non-negative and the CGST, SGST and IGST lines shown add up to it |
| ShopifyOrderTransformer.DiscountShownOnce | transformers/shopifyOrderTransformer.mjs:153-156 | with an order discount and no zero-quantity item, the totals show the discount line exactly when no row carries a discount; the row discounts add up to what the pool lost |
| ShopifyOrderTransformer.NoDiscountLineWithoutOrderDiscount | transformers/shopifyOrderTransformer.mjs:154-156 | without a positive order discount there is no discount line |
| ShopifyOrderTransformer.TotalsCopiedFromOrder | transformers/shopifyOrderTransformer.mjs:157-162 | shipping and grand total are copied from the order and do not depend on the rows |
| ShopifyOrderTransformer.RupeeSubtotalAsWritten | transformers/shopifyOrderTransformer.mjs:124-127 | for an INR order the source's subtotal equals the model's |
| ShopifyOrderTransformer.ForeignSubtotalAsWritten | transformers/shopifyOrderTransformer.mjs:124-127 | for a non-empty order in another currency the source's subtotal is NaN, while the model's is the sum of the displayed row prices |
| InvoiceScenarios.InterstateDiscountedOrder | transformers/shopifyOrderTransformer.mjs:54-127 | 2590.00 with 400.00 off, Punjab to Maharashtra: one row with the whole discount, 5% slab, IGST equal to the tax, no CGST/SGST, no discount line, subtotal 2066.67 |
| InvoiceScenarios.IntrastateHigherSlabOrder | transformers/shopifyOrderTransformer.mjs:79-91 | 3000.00 within Punjab: 18% slab, CGST = SGST = tax/2, no IGST |
| InvoiceScenarios.UnknownlandIsInterstate | utils/gstUtils.mjs:75-82 | "Unknownland" is interstate with every state |
| InvoiceScenarios.SlabBoundary | transformers/shopifyOrderTransformer.mjs:80 | a discounted base of exactly 2500.00 selects 18%, 2499.99 selects 5% |
| InvoiceScenarios.ThreeUnitsOneDiscount | transformers/shopifyOrderTransformer.mjs:68-69 | quantity 3 gives three rows of quantity 1, the discount on the first only |
| InvoiceScenarios.OneItemTakingPool | transformers/shopifyOrderTransformer.mjs:56-69 | a one-item order taking the order discount: one row per unit, the discount on the first only, no discount line |
| InvoiceScenarios.PoolUsedInItemOrder | transformers/shopifyOrderTransformer.mjs:57-65 | two items share one pool: the first takes all of it, the second none |
| InvoiceScenarios.SameItemTwiceTakingPool | transformers/shopifyOrderTransformer.mjs:56-69 | one unit listed twice under an order discount: the first row takes it all, the second none, no discount line |
| InvoiceScenarios.DollarOrderSubtotal | transformers/shopifyOrderTransformer.mjs:124-127 | the sample order in USD has a NaN subtotal as the source computes it |
| InvoiceScenarios.SampleMrpText | transformers/shopifyOrderTransformer.mjs:102 | the sample MRP displays as "Rs. 2590.00" |
| InvoiceScenarios.SampleSellingPriceText | transformers/shopifyOrderTransformer.mjs:104 | the sample pre-tax price after discount displays as "Rs. 2066.67" |

## Left out

- Everything outside the two files:
  - the Lambda handler;
  - the PDF rendering and its templates, and the template configuration in DynamoDB;
  - S3 and SNS.
- `parseShopifyWebhook` and the webhook parsing: the model starts from an already parsed and defaulted order, `ShopifyOrder.Order`.
- Floating point: amounts are exact reals, with no IEEE-754 double rounding and no overflow to infinity.
- JsNumbers.ToFixed2: does not model amounts of 10^21 or more, which `toFixed` writes in exponent notation.
- JsNumbers.ParseFloat: is exact only for text carrying at most a double's precision, because reals do not round to doubles.
- Numeric parsing of input fields:
  - `parseFloat` of `price`, `total_discount`, `compare_at_price`, `current_total_discounts`, the shipping amount and the total price is not modelled: these arrive as numbers;
  - a malformed price, which gives NaN in the source, is not represented;
  - a missing total price is `None`.
- InvoiceRows.Mrp: the source tests the truthiness of `compare_at_price` before parsing it. A numeric 0 is falsy and gives the selling price; the string "0.00" is truthy and gives 0. The model follows the source only when the defaulting of the order maps every falsy value to `None`.
- InvoiceTotals.GrandTotal: the same holds for `current_total_price || total_price` (line 162). A falsy current total price must arrive as `None` for the model to fall back to the total price as the source does.
- JsBuiltins.LowerChar: lower-cases A–Z and U+212A KELVIN SIGN only. Every other character is left as it is, because every comparison the core makes is against ASCII text.
- GstUtils.GetStateCode: does not model names that are properties of `Object.prototype` (`"constructor"`, `"toString"`), because the source looks them up on a plain object. The model covers only the table's own keys.
- Quantities are natural numbers. A negative, fractional or missing `quantity` (which `Array.from` converts with `ToLength`) is not modelled.
- A `line_items` value that is present but not an array raises a TypeError in the source. The model has only present-or-absent.
- `item.title` and `item.name` both absent: the model uses "". In the source the row name is then the value `undefined` when there is no HSN code, and the text "undefined (HSN: …)" when there is one.
- An absent `currency`: the source gives it no default, so the symbol is `undefined` and amounts print as "undefined 2590.00". The model reads an absent currency as "", which is shown as the empty symbol.
- HSN values that are not strings (such as a numeric metafield value) are not modelled.
- Display strings:
  - rows and totals keep their amounts as numbers;
  - the `${currencySymbol} ${amount.toFixed(2)}` text is modelled once, as `AmountText`, and used where the source reads text back (the subtotal);
  - the discount line's leading "-" is not modelled.
- The `order`, `customer` and `shippingAddress` blocks (lines 129-148) are not modelled. They are `||` defaulted copies of order fields, with no tax logic. This includes the date formatting with `toLocaleDateString`.
- `process.env.COMPANY_STATE` is the `companyState` parameter, with an unset variable given as "".

## Findings

| source | as written | input that shows it | evidently intended | confidence | as-written member | corrected member |
|---|---|---|---|---|---|---|
| transformers/shopifyOrderTransformer.mjs:124-127 | each row's displayed pre-tax price is read back after removing only the text "Rs. ", so in any other currency the text starts with the currency code and `parseFloat` gives NaN, and the subtotal is NaN | an order in currency "USD" with one line item priced 2590.00 (`InvoiceScenarios.DollarOrderSubtotal`) | the subtotal is the sum of the rows' displayed pre-tax prices whatever the currency, as the comment at line 123 says | high, not executed | InvoiceTotals.ForeignCurrencySubtotalIsNaN | InvoiceTotals.SubtotalReadsRowPrices |

The as-written computation is `InvoiceTotals.AsWrittenSubtotal`. `ShopifyOrderTransformer.ForeignSubtotalAsWritten` states the discrepancy for whole invoices. The model's totals use the corrected subtotal, `InvoiceTotals.ComputeTotals`. `ShopifyOrderTransformer.RupeeSubtotalAsWritten` shows that the two agree for INR orders.
