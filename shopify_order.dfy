/**
 * The parts of a Shopify order that the invoice transformation reads, with every
 * field already parsed and defaulted: an absent or falsy string is "", an absent
 * number that the source defaults is 0, and a field whose absence the source
 * treats specially is an `Option`.
 */
module ShopifyOrder {
  import opened Wrappers

  /** A product metafield (`item.product.metafields[k]`). */
  datatype Metafield = Metafield(namespace: string, key: string, value: string)

  /** A line-item property (`item.properties[k]`); an absent name is "". */
  datatype Property = Property(name: string, value: string)

  datatype LineItem = LineItem(
    title: string,                // item.title
    name: string,                 // item.name, shown when the title is empty
    price: real,                  // item.price: the unit price, GST included
    quantity: nat,                // item.quantity: the number of rows the item expands into
    totalDiscount: real,          // item.total_discount, 0 when absent
    compareAtPrice: Option<real>, // item.compare_at_price (the MRP), None when absent or falsy
    metafields: seq<Metafield>,   // item.product.metafields, [] when absent
    properties: seq<Property>,    // item.properties, [] when absent
    sku: string,                  // item.sku, "" when absent
    variantTitle: string          // item.variant_title, "" when absent
  )

  datatype Order = Order(
    currency: string,                    // currency, "" when absent
    shippingProvince: string,            // shipping_address.province
    billingProvince: string,             // billing_address.province
    lineItems: Option<seq<LineItem>>,    // line_items, None when absent
    currentTotalDiscounts: real,         // current_total_discounts, 0 when absent
    shippingAmount: real,                // total_shipping_price_set.shop_money.amount, 0 when absent
    currentTotalPrice: Option<real>,     // current_total_price, None when absent or falsy
    totalPrice: Option<real>             // total_price, None when absent
  )

  /** The seller's state when the environment does not name one. */
  const DefaultCompanyState: string := "Punjab"

  /** `process.env.COMPANY_STATE || 'Punjab'`, with an unset variable given as "". */
  function SellerState(companyState: string): (s: string)
    ensures s != ""
    ensures companyState != "" ==> s == companyState
    ensures companyState == "" ==> s == DefaultCompanyState
  {
    if companyState != "" then companyState else DefaultCompanyState
  }

  /** The buyer's state: the shipping province, else the billing province, else "". */
  function BuyerState(order: Order): (s: string)
    ensures s == order.shippingProvince || s == order.billingProvince
    ensures s == "" <==> order.shippingProvince == "" && order.billingProvince == ""
    ensures order.shippingProvince != "" ==> s == order.shippingProvince
    ensures order.shippingProvince == "" ==> s == order.billingProvince
  {
    if order.shippingProvince != "" then order.shippingProvince else order.billingProvince
  }

  /** `line_items`, with an absent collection read as empty (`?.flatMap(...) || []`). */
  function LineItemsOf(order: Order): seq<LineItem>
  {
    OrElse(order.lineItems, [])
  }

  /** The display symbol: "Rs." for INR, otherwise the currency code itself. */
  function CurrencySymbol(currency: string): (symbol: string)
    ensures currency == "INR" ==> symbol == "Rs."
    ensures symbol == "Rs." || symbol == currency
    ensures currency != "INR" ==> symbol == currency
  {
    if currency == "INR" then "Rs." else currency
  }
}
