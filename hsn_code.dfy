/**
 * The HSN (Harmonized System of Nomenclature) code of a line item and the row name
 * that shows it (transformers/shopifyOrderTransformer.mjs, lines 29-52 and 93-95).
 * The code is display-only: nothing in the tax arithmetic reads it.
 */
module HsnCode {
  import opened Wrappers
  import opened JsBuiltins
  import opened ShopifyOrder

  /** Source 1: the product metafield `custom.hsn_code`. */
  predicate IsHsnMetafield(m: Metafield)
  {
    m.namespace == "custom" && m.key == "hsn_code"
  }

  /** Source 2: a property whose (non-empty) name contains "hsn", ignoring case. */
  predicate IsHsnProperty(p: Property)
  {
    p.name != "" && Includes(ToLowerCase(p.name), "hsn")
  }

  /**
   * Source 3: the pattern `/HSN(\d{4,8})/i` can match at index `p` of the SKU:
   * "HSN" in any case, then at least four digits. The case-insensitive letters
   * of the pattern match only their two ASCII forms.
   */
  predicate SkuMatchAt(sku: string, p: nat)
  {
    && p + 3 <= |sku|
    && LowerChar(sku[p]) == 'h' && LowerChar(sku[p + 1]) == 's' && LowerChar(sku[p + 2]) == 'n'
    && DigitRun(sku, p + 3) >= 4
  }

  /** The leftmost index, from `from` on, at which the SKU pattern matches. */
  function FirstSkuMatch(sku: string, from: nat): (r: Option<nat>)
    ensures r.Some? ==> from <= r.value && SkuMatchAt(sku, r.value)
    ensures r.Some? ==> forall q :: from <= q < r.value ==> !SkuMatchAt(sku, q)
    ensures r.None? ==> forall q :: from <= q ==> !SkuMatchAt(sku, q)
    decreases |sku| - from
  {
    if from + 3 > |sku| then None
    else if SkuMatchAt(sku, from) then Some(from)
    else FirstSkuMatch(sku, from + 1)
  }

  /** The group the pattern captures at a match: the digits after "HSN", greedily, at most eight. */
  function SkuCapture(sku: string, p: nat): (code: string)
    requires SkuMatchAt(sku, p)
    ensures 4 <= |code| <= 8
    ensures forall k :: 0 <= k < |code| ==> IsAsciiDigit(code[k])
    ensures p + 3 + |code| <= |sku| && code == sku[p + 3..p + 3 + |code|]
    ensures |code| == 8 || p + 3 + |code| == |sku| || !IsAsciiDigit(sku[p + 3 + |code|])
  {
    var n := DigitRun(sku, p + 3);
    sku[p + 3..p + 3 + (if n < 8 then n else 8)]
  }

  /** `sku.match(/HSN(\d{4,8})/i)`: the captured code of the leftmost match, if any. */
  function SkuHsnCode(sku: string): (r: Option<string>)
    ensures r.None? <==> forall q: nat :: !SkuMatchAt(sku, q)
    ensures r.Some? ==> exists p :: SkuMatchAt(sku, p) && (forall q: nat :: q < p ==> !SkuMatchAt(sku, q))
                                  && r.value == SkuCapture(sku, p)
  {
    match FirstSkuMatch(sku, 0)
    case Some(p) => Some(SkuCapture(sku, p))
    case None => None
  }

  /** What source 1 offers: the value of the first `custom.hsn_code` metafield, "" if there is none. */
  function MetafieldHsn(item: LineItem): string
  {
    match FindIndex(item.metafields, IsHsnMetafield)
    case Some(k) => item.metafields[k].value
    case None => ""
  }

  /** What source 2 offers: the value of the first HSN-named property, "" if there is none. */
  function PropertyHsn(item: LineItem): string
  {
    match FindIndex(item.properties, IsHsnProperty)
    case Some(k) => item.properties[k].value
    case None => ""
  }

  /** What source 3 offers: the code in the SKU, "" if the pattern does not match. */
  function SkuHsn(item: LineItem): string
  {
    if item.sku != "" then OrElse(SkuHsnCode(item.sku), "") else ""
  }

  /** The HSN code of a line item: the first source, in priority order, that offers a non-empty code. */
  function HsnCodeOf(item: LineItem): (hsnCode: string)
    ensures hsnCode == MetafieldHsn(item) || hsnCode == PropertyHsn(item) || hsnCode == SkuHsn(item)
  {
    var hsnCode := MetafieldHsn(item);
    var hsnCode := if hsnCode == "" then PropertyHsn(item) else hsnCode;
    if hsnCode == "" then SkuHsn(item) else hsnCode
  }

  /** The first `custom.hsn_code` metafield, when its value is non-empty, gives the code. */
  lemma {:induction false} MetafieldWins(item: LineItem, k: nat)
    requires k < |item.metafields| && IsHsnMetafield(item.metafields[k])
    requires forall j :: 0 <= j < k ==> !IsHsnMetafield(item.metafields[j])
    requires item.metafields[k].value != ""
    ensures HsnCodeOf(item) == item.metafields[k].value
  {
    var r := FindIndex(item.metafields, IsHsnMetafield);
    assert r.Some? && r.value == k;
  }

  /** Without a usable metafield, the first HSN-named property, when its value is non-empty, gives the code. */
  lemma {:induction false} PropertyIsSecond(item: LineItem, k: nat)
    requires MetafieldHsn(item) == ""
    requires k < |item.properties| && IsHsnProperty(item.properties[k])
    requires forall j :: 0 <= j < k ==> !IsHsnProperty(item.properties[j])
    requires item.properties[k].value != ""
    ensures HsnCodeOf(item) == item.properties[k].value
  {
    var r := FindIndex(item.properties, IsHsnProperty);
    assert r.Some? && r.value == k;
  }

  /** Without a usable metafield or property, the leftmost SKU match gives the code. */
  lemma {:induction false} SkuIsLast(item: LineItem, p: nat)
    requires MetafieldHsn(item) == "" && PropertyHsn(item) == ""
    requires SkuMatchAt(item.sku, p) && forall q: nat :: q < p ==> !SkuMatchAt(item.sku, q)
    ensures HsnCodeOf(item) == SkuCapture(item.sku, p)
  {
    var r := FirstSkuMatch(item.sku, 0);
    assert r.Some? && r.value == p;
  }

  /** The code is empty exactly when no source offers one. */
  lemma {:induction false} NoHsnCode(item: LineItem)
    ensures HsnCodeOf(item) == ""
        <==> MetafieldHsn(item) == "" && PropertyHsn(item) == ""
             && forall q: nat :: !SkuMatchAt(item.sku, q)
  {
    if item.sku == "" {
      forall q: nat ensures !SkuMatchAt(item.sku, q) { }
    } else if SkuHsnCode(item.sku).Some? {
      assert |SkuHsnCode(item.sku).value| >= 4;
    }
  }

  /** `item.title || item.name`. */
  function ItemName(item: LineItem): (itemName: string)
    ensures item.title != "" ==> itemName == item.title
    ensures item.title == "" ==> itemName == item.name
    ensures itemName == "" <==> item.title == "" && item.name == ""
  {
    if item.title != "" then item.title else item.name
  }

  /** The row name: the item's name, followed by " (HSN: code)" only when a code was found. */
  function NameWithHsn(item: LineItem, hsnCode: string): (name: string)
    ensures |ItemName(item)| <= |name| && name[..|ItemName(item)|] == ItemName(item)
    ensures name == ItemName(item) <==> hsnCode == ""
    ensures hsnCode != "" ==> name[|ItemName(item)|..] == " (HSN: " + hsnCode + ")"
  {
    var itemName := ItemName(item);
    if hsnCode != "" then itemName + " (HSN: " + hsnCode + ")" else itemName
  }
}
